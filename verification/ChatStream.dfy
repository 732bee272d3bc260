/**
 The streaming chat route: a sequence of chunks becomes a sequence of server-sent frames and
 one status label, whatever ends the sequence.
 */
module ChatStream {
  import opened EngineBase

  datatype Frame =
    | ContentFrame(role: bool, content: string)
    | UsageFrame(finishReason: Option<FinishReason>, promptTokens: nat, completionTokens: nat, totalTokens: nat)
    | DoneFrame
    | ErrorFrame(code: string)

  /** Unhandled stands for an exception the route has no clause for. */
  datatype Exception = CapacityError | TimeoutError | RuntimeOrValueError | Unhandled

  /** What the next turn of the route's loop meets: a chunk, with the client gone or not; a chunk at one
      of whose yields an exception arrives, once that frame and `before` earlier ones have gone out; or an
      exception instead of a chunk. */
  datatype Turn =
    | Next(chunk: StreamChunk, disconnected: bool)
    | Cut(chunk: StreamChunk, before: nat, exception: Exception)
    | Throw(exception: Exception)

  /** status is the label counted for the request; None when an exception escapes. */
  datatype Reply = Reply(frames: seq<Frame>, status: Option<string>, generatedTokens: nat)

  function TextFrames(chunk: StreamChunk, first: bool): seq<Frame> {
    if chunk.text == "" then [] else [ContentFrame(first, chunk.text)]
  }

  function UsageOf(chunk: StreamChunk): Frame {
    UsageFrame(chunk.finishReason, chunk.promptTokens, chunk.generatedTokens, chunk.promptTokens + chunk.generatedTokens)
  }

  function DoneFrames(chunk: StreamChunk): seq<Frame> {
    if chunk.done then [UsageOf(chunk), DoneFrame] else []
  }

  function FramesOf(chunk: StreamChunk, first: bool): seq<Frame> {
    TextFrames(chunk, first) + DoneFrames(chunk)
  }

  /** The frames that have gone out when an exception arrives at a yield. */
  function CutFrames(chunk: StreamChunk, first: bool, before: nat): seq<Frame> {
    var frames := FramesOf(chunk, first);
    if before < |frames| then frames[..before + 1] else frames
  }

  function Tokens(chunk: StreamChunk): nat {
    if chunk.done then chunk.generatedTokens else 0
  }

  /** Tokens are counted just before the usage frame. */
  function CutTokens(chunk: StreamChunk, before: nat): nat {
    if before >= |TextFrames(chunk, true)| then Tokens(chunk) else 0
  }

  function Failure(e: Exception): Reply {
    match e
    case CapacityError => Reply([ErrorFrame("capacity_exhausted")], Some("saturated"), 0)
    case TimeoutError => Reply([ErrorFrame("timeout")], Some("timeout"), 0)
    case RuntimeOrValueError => Reply([ErrorFrame("generation_error")], Some("error"), 0)
    case Unhandled => Reply([], None, 0)
  }

  /** A reply whose first part has already been sent and counted. */
  function Continue(sent: seq<Frame>, tokens: nat, rest: Reply): Reply {
    Reply(sent + rest.frames, rest.status, tokens + rest.generatedTokens)
  }

  function Respond(turns: seq<Turn>, first: bool): Reply {
    if turns == [] then Reply([], Some("success"), 0)
    else match turns[0]
      case Throw(e) => Failure(e)
      case Cut(chunk, before, e) =>
        Continue(CutFrames(chunk, first, before), CutTokens(chunk, before), Failure(e))
      case Next(chunk, disconnected) =>
        if disconnected then Reply([], Some("cancelled"), 0)
        else
          var rest := Respond(turns[1..], first && chunk.text == "");
          Continue(FramesOf(chunk, first), Tokens(chunk), rest)
  }

  /** The request counter after one request ends with the given status. */
  function Counted(requests: map<string, nat>, status: Option<string>): map<string, nat> {
    match status
    case None => requests
    case Some(s) => requests[s := if s in requests then requests[s] + 1 else 1]
  }

  /** The label's count goes up by one, and no other count changes. */
  lemma CountedOnce(requests: map<string, nat>, status: Option<string>)
    ensures forall name :: name in Counted(requests, status) <==> name in requests || status == Some(name)
    ensures forall name :: name in requests ==>
              Counted(requests, status)[name] == requests[name] + (if status == Some(name) then 1 else 0)
    ensures status.Some? && status.value !in requests ==> Counted(requests, status)[status.value] == 1
  {
  }

  class Metrics {
    var requests: map<string, nat>
    var generatedTokens: nat

    constructor ()
      ensures requests == map[] && generatedTokens == 0
    {
      requests, generatedTokens := map[], 0;
    }

    method Inc(status: string)
      modifies this`requests
      ensures requests == Counted(old(requests), Some(status))
    {
      if status in requests {
        requests := requests[status := requests[status] + 1];
      } else {
        requests := requests[status := 1];
      }
    }
  }

  /** The route's exception clauses. */
  method HandleException(e: Exception, metrics: Metrics) returns (frames: seq<Frame>, escaped: bool)
    modifies metrics`requests
    ensures frames == Failure(e).frames && escaped == Failure(e).status.None?
    ensures metrics.requests == Counted(old(metrics.requests), Failure(e).status)
  {
    frames, escaped := [], false;
    match e {
      case CapacityError =>
        metrics.Inc("saturated");
        frames := [ErrorFrame("capacity_exhausted")];
      case TimeoutError =>
        metrics.Inc("timeout");
        frames := [ErrorFrame("timeout")];
      case RuntimeOrValueError =>
        metrics.Inc("error");
        frames := [ErrorFrame("generation_error")];
      case Unhandled =>
        escaped := true;
    }
  }

  lemma ContinueContinues(sent: seq<Frame>, tokens: nat, more: seq<Frame>, moreTokens: nat, rest: Reply)
    ensures Continue(sent, tokens, Continue(more, moreTokens, rest)) == Continue(sent + more, tokens + moreTokens, rest)
  {
    assert sent + (more + rest.frames) == sent + more + rest.frames;
  }

  lemma OneTurn(sent: seq<Frame>, tokens: nat, chunk: StreamChunk, rest: seq<Turn>, first: bool)
    ensures Continue(sent, tokens, Respond([Next(chunk, false)] + rest, first))
         == Continue(sent + FramesOf(chunk, first), tokens + Tokens(chunk), Respond(rest, first && chunk.text == ""))
  {
    assert ([Next(chunk, false)] + rest)[1..] == rest;
    ContinueContinues(sent, tokens, FramesOf(chunk, first), Tokens(chunk), Respond(rest, first && chunk.text == ""));
  }

  lemma LastTurns(sent: seq<Frame>, tokens: nat, turn: Turn, rest: seq<Turn>, first: bool)
    ensures var reply := Continue(sent, tokens, Respond([turn] + rest, first));
            && (turn.Throw? ==> reply == Continue(sent, tokens, Failure(turn.exception)))
            && (turn.Cut? ==> reply == Continue(sent + CutFrames(turn.chunk, first, turn.before),
                                                tokens + CutTokens(turn.chunk, turn.before), Failure(turn.exception)))
            && (turn.Next? && turn.disconnected ==> reply == Reply(sent, Some("cancelled"), tokens))
    ensures Continue(sent, tokens, Respond([], first)) == Reply(sent, Some("success"), tokens)
  {
    var none: seq<Frame> := [];
    assert sent + none == sent;
    if turn.Cut? {
      ContinueContinues(sent, tokens, CutFrames(turn.chunk, first, turn.before),
                        CutTokens(turn.chunk, turn.before), Failure(turn.exception));
    }
  }

  /** What the loop body sends for one chunk, up to the yield an exception arrives at, if one does. */
  method SendChunk(chunk: StreamChunk, first: bool, cut: Option<nat>, metrics: Metrics)
    returns (sent: seq<Frame>, stillFirst: bool)
    modifies metrics`generatedTokens
    ensures sent == if cut.Some? then CutFrames(chunk, first, cut.value) else FramesOf(chunk, first)
    ensures cut.None? ==> stillFirst == (first && chunk.text == "")
    ensures metrics.generatedTokens
         == old(metrics.generatedTokens) + if cut.Some? then CutTokens(chunk, cut.value) else Tokens(chunk)
  {
    sent, stillFirst := [], first;
    if chunk.text != "" {
      stillFirst := false;
      sent := sent + [ContentFrame(first, chunk.text)];
      if cut == Some(0) {
        return;
      }
    }
    if chunk.done {
      metrics.generatedTokens := metrics.generatedTokens + chunk.generatedTokens;
      sent := sent + [UsageOf(chunk)];
      if cut == Some(|sent| - 1) {
        return;
      }
      sent := sent + [DoneFrame];
    }
  }

  /** The route's loop: frames go out in order and each request is counted under one label. */
  method StreamResponse(turns: seq<Turn>, metrics: Metrics) returns (frames: seq<Frame>, escaped: bool)
    modifies metrics
    ensures frames == Respond(turns, true).frames
    ensures escaped == Respond(turns, true).status.None?
    ensures metrics.requests == Counted(old(metrics.requests), Respond(turns, true).status)
    ensures metrics.generatedTokens == old(metrics.generatedTokens) + Respond(turns, true).generatedTokens
  {
    hide Respond, CutFrames, CutTokens, FramesOf;
    frames, escaped := [], false;
    var first := true;
    var i := 0;
    ghost var tokens: nat := 0;
    assert turns[0..] == turns;
    while i < |turns|
      invariant 0 <= i <= |turns|
      invariant metrics.requests == old(metrics.requests)
      invariant metrics.generatedTokens == old(metrics.generatedTokens) + tokens
      invariant Continue(frames, tokens, Respond(turns[i..], first)) == Respond(turns, true)
    {
      var turn := turns[i];
      ghost var rest := turns[i + 1..];
      assert turns[i..] == [turn] + rest;
      LastTurns(frames, tokens, turn, rest, first);
      i := i + 1;
      if turn.Next? && turn.disconnected {
        metrics.Inc("cancelled");
        return;
      }
      var sent;
      if turn.Next? {
        OneTurn(frames, tokens, turn.chunk, rest, first);
        tokens := tokens + Tokens(turn.chunk);
        sent, first := SendChunk(turn.chunk, first, None, metrics);
        frames := frames + sent;
      } else {
        if turn.Cut? {
          sent, first := SendChunk(turn.chunk, first, Some(turn.before), metrics);
          frames := frames + sent;
        }
        var error;
        error, escaped := HandleException(turn.exception, metrics);
        frames := frames + error;
        return;
      }
    }
    assert turns[i..] == [];
    LastTurns(frames, tokens, Throw(Unhandled), [], first);
    metrics.Inc("success");
  }

  /******* Every run *******/

  /** The chunks whose text the client was sent. */
  function Delivered(turns: seq<Turn>): seq<StreamChunk> {
    if turns == [] then []
    else match turns[0]
      case Throw(_) => []
      case Cut(chunk, _, _) => [chunk]
      case Next(chunk, disconnected) => if disconnected then [] else [chunk] + Delivered(turns[1..])
  }

  /** How many turns pass undisturbed before the run ends. */
  function Uninterrupted(turns: seq<Turn>): (n: nat)
    ensures n <= |turns|
    ensures forall i :: 0 <= i < n ==> turns[i].Next? && !turns[i].disconnected
    ensures n < |turns| ==> turns[n].Next? ==> turns[n].disconnected
  {
    if turns == [] || !turns[0].Next? || turns[0].disconnected then 0 else 1 + Uninterrupted(turns[1..])
  }

  predicate Raises(turns: seq<Turn>, e: Exception) {
    var n := Uninterrupted(turns);
    n < |turns| && !turns[n].Next? && turns[n].exception == e
  }

  function Contents(frames: seq<Frame>): string {
    if frames == [] then ""
    else (match frames[0] case ContentFrame(_, text) => text case _ => "") + Contents(frames[1..])
  }

  ghost predicate NoContentBefore(frames: seq<Frame>, i: nat)
    requires i <= |frames|
  {
    forall j :: 0 <= j < i ==> !frames[j].ContentFrame?
  }

  /** Only the first content frame carries the role; `first` says none has gone out yet. */
  ghost predicate RoleOnce(frames: seq<Frame>, first: bool) {
    forall i :: 0 <= i < |frames| && frames[i].ContentFrame? ==>
      frames[i].content != "" && (frames[i].role <==> first && NoContentBefore(frames, i))
  }

  lemma {:induction false} ContentsConcat(a: seq<Frame>, b: seq<Frame>)
    ensures Contents(a + b) == Contents(a) + Contents(b)
  {
    if a == [] {
      assert a + b == b;
    } else {
      assert (a + b)[1..] == a[1..] + b;
      ContentsConcat(a[1..], b);
    }
  }

  lemma HeadAndLast(c: StreamChunk, init: seq<StreamChunk>, last: StreamChunk)
    requires Concatenated([c] + init) == c.text + Concatenated(init)
    ensures Concatenated([c] + (init + [last])) == c.text + Concatenated(init + [last])
  {
    hide Concatenated;
    ConcatenatedSnoc(init, last);
    ConcatenatedSnoc([c] + init, last);
    assert [c] + (init + [last]) == [c] + init + [last];
  }

  lemma {:induction false} ConcatenatedHead(c: StreamChunk, rest: seq<StreamChunk>)
    ensures Concatenated([c] + rest) == c.text + Concatenated(rest)
    decreases |rest|
  {
    if rest == [] {
      OneDelivered(c);
      assert [c] + rest == [c];
      assert c.text + "" == c.text;
    } else {
      hide Concatenated;
      var init, last := rest[..|rest| - 1], rest[|rest| - 1];
      ConcatenatedHead(c, init);
      HeadAndLast(c, init, last);
      assert rest == init + [last];
    }
  }

  lemma OneFrame(frame: Frame)
    ensures Contents([frame]) == if frame.ContentFrame? then frame.content else ""
  {
    assert [frame][1..] == [];
  }

  lemma DoneHasNoContents(chunk: StreamChunk)
    ensures Contents(DoneFrames(chunk)) == "" && Contents([UsageOf(chunk)]) == ""
  {
    OneFrame(UsageOf(chunk));
    OneFrame(DoneFrame);
    ContentsConcat([UsageOf(chunk)], [DoneFrame]);
    assert [UsageOf(chunk)] + [DoneFrame] == [UsageOf(chunk), DoneFrame];
  }

  lemma TurnContents(chunk: StreamChunk, first: bool)
    ensures Contents(FramesOf(chunk, first)) == chunk.text
  {
    ContentsConcat(TextFrames(chunk, first), DoneFrames(chunk));
    DoneHasNoContents(chunk);
    if chunk.text != "" {
      OneFrame(ContentFrame(first, chunk.text));
      assert chunk.text + "" == chunk.text;
    }
  }

  /** A turn cut at a yield has sent its chunk's text. */
  lemma CutContents(chunk: StreamChunk, first: bool, before: nat)
    ensures Contents(CutFrames(chunk, first, before)) == chunk.text
  {
    TurnContents(chunk, first);
    var frames := FramesOf(chunk, first);
    if before < |frames| {
      var sent, unsent := frames[..before + 1], frames[before + 1..];
      assert sent + unsent == frames;
      ContentsConcat(sent, unsent);
      assert Contents(unsent) == "" by {
        NoContents(unsent);
      }
      assert Contents(sent) + "" == Contents(sent);
    }
  }

  lemma {:induction false} NoContents(frames: seq<Frame>)
    requires forall i :: 0 <= i < |frames| ==> !frames[i].ContentFrame?
    ensures Contents(frames) == ""
  {
    if frames != [] {
      NoContents(frames[1..]);
    }
  }

  lemma FailureHasNoContents(e: Exception)
    ensures Contents(Failure(e).frames) == ""
  {
    NoContents(Failure(e).frames);
  }

  /** The contents sent are the texts delivered. */
  lemma {:induction false} ContentsAreDelivered(turns: seq<Turn>, first: bool)
    ensures Contents(Respond(turns, first).frames) == Concatenated(Delivered(turns))
  {
    hide Concatenated, Contents, FramesOf, CutFrames;
    NothingSaid();
    if turns != [] {
      match turns[0]
      case Throw(e) => FailureHasNoContents(e);
      case Cut(chunk, before, e) =>
        FailureHasNoContents(e);
        CutContents(chunk, first, before);
        ContentsConcat(CutFrames(chunk, first, before), Failure(e).frames);
        OneDelivered(chunk);
        assert chunk.text + "" == chunk.text;
      case Next(chunk, disconnected) =>
        if !disconnected {
          var next := first && chunk.text == "";
          ContentsAreDelivered(turns[1..], next);
          ContentsConcat(FramesOf(chunk, first), Respond(turns[1..], next).frames);
          TurnContents(chunk, first);
          ConcatenatedHead(chunk, Delivered(turns[1..]));
        }
    }
  }

  lemma NothingSaid()
    ensures Contents([]) == "" && Concatenated([]) == ""
  {
  }

  lemma OneDelivered(chunk: StreamChunk)
    ensures Concatenated([chunk]) == chunk.text
  {
    var none: seq<StreamChunk> := [];
    assert [chunk][..0] == none;
    assert "" + chunk.text == chunk.text;
  }

  lemma NoContentCons(frame: Frame, rest: seq<Frame>, i: nat)
    requires i <= |rest|
    ensures NoContentBefore([frame] + rest, i + 1) <==> !frame.ContentFrame? && NoContentBefore(rest, i)
  {
    var all := [frame] + rest;
    assert all[0] == frame && forall j :: 0 <= j < i ==> all[j + 1] == rest[j];
    assert forall j :: 0 < j < i + 1 ==> all[j] == rest[j - 1];
  }

  lemma RoleCons(frame: Frame, rest: seq<Frame>, first: bool)
    requires RoleOnce(rest, first && !frame.ContentFrame?)
    requires frame.ContentFrame? ==> frame.content != "" && frame.role == first
    ensures RoleOnce([frame] + rest, first)
  {
    var all := [frame] + rest;
    forall i | 0 <= i < |all| && all[i].ContentFrame?
      ensures all[i].content != "" && (all[i].role <==> first && NoContentBefore(all, i))
    {
      if i > 0 {
        assert all[i] == rest[i - 1];
        NoContentCons(frame, rest, i - 1);
      }
    }
  }

  lemma {:induction false} RoleWithoutContent(frames: seq<Frame>, rest: seq<Frame>, first: bool)
    requires RoleOnce(rest, first) && forall i :: 0 <= i < |frames| ==> !frames[i].ContentFrame?
    ensures RoleOnce(frames + rest, first)
  {
    hide RoleOnce;
    if frames == [] {
      assert frames + rest == rest;
    } else {
      RoleWithoutContent(frames[1..], rest, first);
      RoleCons(frames[0], frames[1..] + rest, first);
      assert frames + rest == [frames[0]] + (frames[1..] + rest);
    }
  }

  /** Frames that begin a chunk's, then the rest of the reply. */
  lemma RoleAfterChunk(chunk: StreamChunk, sent: seq<Frame>, rest: seq<Frame>, first: bool)
    requires sent <= FramesOf(chunk, first) && (sent == [] ==> chunk.text == "")
    requires RoleOnce(rest, first && chunk.text == "")
    ensures RoleOnce(sent + rest, first)
  {
    hide RoleOnce;
    var frames := FramesOf(chunk, first);
    assert forall i :: 0 <= i < |sent| ==> sent[i] == frames[i];
    if chunk.text == "" {
      RoleWithoutContent(sent, rest, first);
    } else {
      RoleWithoutContent(sent[1..], rest, false);
      RoleCons(sent[0], sent[1..] + rest, first);
      assert sent + rest == [sent[0]] + (sent[1..] + rest);
    }
  }

  lemma FailureHasNoRole(e: Exception, first: bool)
    ensures RoleOnce(Failure(e).frames, first)
  {
  }

  /** The role goes out on the first content frame only. */
  lemma {:induction false} RoleGoesOutOnce(turns: seq<Turn>, first: bool)
    ensures RoleOnce(Respond(turns, first).frames, first)
  {
    if turns == [] {
      assert RoleOnce([], first);
    } else {
      hide RoleOnce;
      match turns[0]
      case Throw(e) => FailureHasNoRole(e, first);
      case Cut(chunk, before, e) =>
        FailureHasNoRole(e, first && chunk.text == "");
        RoleAfterChunk(chunk, CutFrames(chunk, first, before), Failure(e).frames, first);
      case Next(chunk, disconnected) =>
        if disconnected {
          FailureHasNoRole(Unhandled, first);
        } else {
          RoleGoesOutOnce(turns[1..], first && chunk.text == "");
          RoleAfterChunk(chunk, FramesOf(chunk, first), Respond(turns[1..], first && chunk.text == "").frames, first);
        }
    }
  }

  /** Which label is counted says how the run ended. */
  lemma {:induction false} LabelTellsTheEnding(turns: seq<Turn>, first: bool)
    ensures var status, n := Respond(turns, first).status, Uninterrupted(turns);
            && (status == Some("success") <==> n == |turns|)
            && (status == Some("cancelled") <==> n < |turns| && turns[n].Next?)
            && (status == Some("saturated") <==> Raises(turns, CapacityError))
            && (status == Some("timeout") <==> Raises(turns, TimeoutError))
            && (status == Some("error") <==> Raises(turns, RuntimeOrValueError))
            && (status == None <==> Raises(turns, Unhandled))
  {
    hide FramesOf, CutFrames, CutTokens, Tokens;
    if turns != [] && turns[0].Next? && !turns[0].disconnected {
      LabelTellsTheEnding(turns[1..], first && turns[0].chunk.text == "");
    }
  }

  /******* Error frames and tokens *******/

  function ErrorsOf(frame: Frame): seq<string> {
    if frame.ErrorFrame? then [frame.code] else []
  }

  function ErrorsIn(frames: seq<Frame>): seq<string> {
    if frames == [] then [] else ErrorsOf(frames[0]) + ErrorsIn(frames[1..])
  }

  function UsageTokens(frames: seq<Frame>): nat {
    if frames == [] then 0
    else (if frames[0].UsageFrame? then frames[0].completionTokens else 0) + UsageTokens(frames[1..])
  }

  lemma {:induction false} ErrorsConcat(a: seq<Frame>, b: seq<Frame>)
    ensures ErrorsIn(a + b) == ErrorsIn(a) + ErrorsIn(b)
  {
    hide ErrorsOf;
    if a == [] {
      assert a + b == b;
    } else {
      assert (a + b)[1..] == a[1..] + b;
      ErrorsConcat(a[1..], b);
      assert ErrorsOf(a[0]) + (ErrorsIn(a[1..]) + ErrorsIn(b)) == ErrorsOf(a[0]) + ErrorsIn(a[1..]) + ErrorsIn(b);
    }
  }

  lemma {:induction false} TokensConcat(a: seq<Frame>, b: seq<Frame>)
    ensures UsageTokens(a + b) == UsageTokens(a) + UsageTokens(b)
  {
    if a == [] {
      assert a + b == b;
    } else {
      assert (a + b)[1..] == a[1..] + b;
      TokensConcat(a[1..], b);
    }
  }

  lemma ReportsConcat(a: seq<Frame>, b: seq<Frame>)
    ensures ErrorsIn(a + b) == ErrorsIn(a) + ErrorsIn(b) && UsageTokens(a + b) == UsageTokens(a) + UsageTokens(b)
  {
    ErrorsConcat(a, b);
    TokensConcat(a, b);
  }

  lemma {:induction false} NothingToReport(frames: seq<Frame>)
    requires forall i :: 0 <= i < |frames| ==> !frames[i].ErrorFrame? && !frames[i].UsageFrame?
    ensures ErrorsIn(frames) == [] && UsageTokens(frames) == 0
  {
    if frames != [] {
      NothingToReport(frames[1..]);
    }
  }

  lemma TextsReport(chunk: StreamChunk, first: bool)
    ensures ErrorsIn(TextFrames(chunk, first)) == [] && UsageTokens(TextFrames(chunk, first)) == 0
    ensures ErrorsIn([DoneFrame]) == [] && UsageTokens([DoneFrame]) == 0
  {
    NothingToReport(TextFrames(chunk, first));
    NothingToReport([DoneFrame]);
  }

  lemma UsageReports(chunk: StreamChunk, first: bool)
    ensures var upTo := TextFrames(chunk, first) + [UsageOf(chunk)];
            ErrorsIn(upTo) == [] && UsageTokens(upTo) == chunk.generatedTokens
  {
    hide ErrorsIn, UsageTokens, TextFrames;
    TextsReport(chunk, first);
    OneReport(UsageOf(chunk));
    ReportsConcat(TextFrames(chunk, first), [UsageOf(chunk)]);
  }

  lemma WholeChunkReports(chunk: StreamChunk, first: bool)
    ensures ErrorsIn(FramesOf(chunk, first)) == [] && UsageTokens(FramesOf(chunk, first)) == Tokens(chunk)
  {
    hide ErrorsIn, UsageTokens, TextFrames;
    var texts := TextFrames(chunk, first);
    TextsReport(chunk, first);
    if chunk.done {
      UsageReports(chunk, first);
      ReportsConcat(texts + [UsageOf(chunk)], [DoneFrame]);
      assert FramesOf(chunk, first) == texts + [UsageOf(chunk)] + [DoneFrame];
    } else {
      assert FramesOf(chunk, first) == texts;
    }
  }

  /** A chunk's frames, all of them or cut at a yield. */
  lemma ChunkReports(chunk: StreamChunk, first: bool, before: nat)
    ensures ErrorsIn(FramesOf(chunk, first)) == [] && UsageTokens(FramesOf(chunk, first)) == Tokens(chunk)
    ensures ErrorsIn(CutFrames(chunk, first, before)) == []
    ensures UsageTokens(CutFrames(chunk, first, before)) == CutTokens(chunk, before)
  {
    hide ErrorsIn, UsageTokens;
    WholeChunkReports(chunk, first);
    TextsReport(chunk, first);
    var texts := TextFrames(chunk, first);
    if before < |texts| {
      assert CutFrames(chunk, first, before) == texts;
    } else if chunk.done && before == |texts| {
      UsageReports(chunk, first);
      assert CutFrames(chunk, first, before) == texts + [UsageOf(chunk)];
    } else {
      assert CutFrames(chunk, first, before) == FramesOf(chunk, first);
    }
  }

  lemma OneReport(frame: Frame)
    requires frame.UsageFrame?
    ensures ErrorsIn([frame]) == [] && UsageTokens([frame]) == frame.completionTokens
  {
    var none: seq<Frame> := [];
    assert [frame][1..] == none;
    assert UsageTokens(none) == 0 && ErrorsIn(none) == [];
  }

  lemma FailureReports(e: Exception)
    ensures UsageTokens(Failure(e).frames) == 0 && Failure(e).generatedTokens == 0
    ensures e == Unhandled ==> Failure(e).frames == []
    ensures e != Unhandled ==> |Failure(e).frames| == 1 && Failure(e).frames[0].ErrorFrame?
    ensures e == CapacityError ==> ErrorsIn(Failure(e).frames) == ["capacity_exhausted"]
    ensures e == TimeoutError ==> ErrorsIn(Failure(e).frames) == ["timeout"]
    ensures e == RuntimeOrValueError ==> ErrorsIn(Failure(e).frames) == ["generation_error"]
  {
    if e != Unhandled {
      assert Failure(e).frames[1..] == [];
    }
  }

  /** A handled exception is told to the client in one error frame with its own code, in last place; nothing
      else is an error frame; and the tokens counted are those of the usage frames sent. */
  lemma {:induction false} ErrorsAreTold(turns: seq<Turn>, first: bool)
    ensures var reply := Respond(turns, first);
            && reply.generatedTokens == UsageTokens(reply.frames)
            && (Raises(turns, CapacityError) ==> ErrorsIn(reply.frames) == ["capacity_exhausted"])
            && (Raises(turns, TimeoutError) ==> ErrorsIn(reply.frames) == ["timeout"])
            && (Raises(turns, RuntimeOrValueError) ==> ErrorsIn(reply.frames) == ["generation_error"])
            && (ErrorsIn(reply.frames) != [] ==> reply.frames[|reply.frames| - 1].ErrorFrame?)
            && (reply.status in {None, Some("success"), Some("cancelled")} ==> ErrorsIn(reply.frames) == [])
  {
    hide FramesOf, CutFrames, CutTokens, Tokens, UsageTokens, ErrorsIn;
    NothingToReport([]);
    if turns != [] {
      match turns[0]
      case Throw(e) => FailureReports(e);
      case Cut(chunk, before, e) =>
        FailureReports(e);
        ChunkReports(chunk, first, before);
        ReportsConcat(CutFrames(chunk, first, before), Failure(e).frames);
      case Next(chunk, disconnected) =>
        if !disconnected {
          var rest := Respond(turns[1..], first && chunk.text == "");
          ErrorsAreTold(turns[1..], first && chunk.text == "");
          ChunkReports(chunk, first, 0);
          ReportsConcat(FramesOf(chunk, first), rest.frames);
        }
    }
  }

  /** Every run, however it ends: the contents sent are the texts delivered, the role goes out once, and
      the one label counted tells the ending; none is counted only when an unhandled exception escapes. */
  lemma EveryRun(turns: seq<Turn>)
    ensures var reply, n := Respond(turns, true), Uninterrupted(turns);
            && Contents(reply.frames) == Concatenated(Delivered(turns))
            && RoleOnce(reply.frames, true)
            && (reply.status == Some("success") <==> n == |turns|)
            && (reply.status == Some("cancelled") <==> n < |turns| && turns[n].Next?)
            && (reply.status == Some("saturated") <==> Raises(turns, CapacityError))
            && (reply.status == Some("timeout") <==> Raises(turns, TimeoutError))
            && (reply.status == Some("error") <==> Raises(turns, RuntimeOrValueError))
            && (reply.status == None <==> Raises(turns, Unhandled))
  {
    ContentsAreDelivered(turns, true);
    RoleGoesOutOnce(turns, true);
    LabelTellsTheEnding(turns, true);
  }

  /******* Runs that end normally *******/

  /** A chunk sequence handed over in full to a client that stays. */
  function Turns(chunks: seq<StreamChunk>): seq<Turn> {
    if chunks == [] then [] else [Next(chunks[0], false)] + Turns(chunks[1..])
  }

  /** One done chunk, in last place. */
  ghost predicate DoneLast(chunks: seq<StreamChunk>) {
    && chunks != [] && chunks[|chunks| - 1].done
    && forall i | 0 <= i < |chunks| - 1 :: !chunks[i].done
  }

  /** The content frames of a chunk sequence. */
  function TextsOnly(chunks: seq<StreamChunk>, first: bool): seq<Frame> {
    if chunks == [] then []
    else TextFrames(chunks[0], first) + TextsOnly(chunks[1..], first && chunks[0].text == "")
  }

  lemma {:induction false} TextsOnlyAreContent(chunks: seq<StreamChunk>, first: bool)
    ensures forall frame | frame in TextsOnly(chunks, first) :: frame.ContentFrame?
  {
    if chunks != [] {
      TextsOnlyAreContent(chunks[1..], first && chunks[0].text == "");
    }
  }

  lemma LastTurn(c: StreamChunk, first: bool)
    requires c.done
    ensures Respond([Next(c, false)], first)
         == Reply(TextFrames(c, first) + [UsageOf(c), DoneFrame], Some("success"), c.generatedTokens)
  {
    var rest := [Next(c, false)][1..];
    assert rest == [];
    var sent := TextFrames(c, first) + [UsageOf(c), DoneFrame];
    assert sent + Respond(rest, first && c.text == "").frames == sent;
  }

  lemma TextTurn(c: StreamChunk, rest: seq<Turn>, first: bool)
    requires !c.done
    ensures var reply := Respond(rest, first && c.text == "");
            Respond([Next(c, false)] + rest, first) == reply.(frames := TextFrames(c, first) + reply.frames)
  {
    assert ([Next(c, false)] + rest)[1..] == rest;
    var none: seq<Frame> := [];
    assert TextFrames(c, first) + none == TextFrames(c, first);
  }

  /** What an exhausted run sends. */
  function Exhausted(chunks: seq<StreamChunk>, first: bool): Reply
    requires chunks != []
  {
    var last := chunks[|chunks| - 1];
    Reply(TextsOnly(chunks, first) + [UsageOf(last), DoneFrame], Some("success"), last.generatedTokens)
  }

  lemma TextsOnlyCons(c: StreamChunk, tail: seq<StreamChunk>, first: bool)
    ensures TextsOnly([c] + tail, first) == TextFrames(c, first) + TextsOnly(tail, first && c.text == "")
  {
    assert ([c] + tail)[1..] == tail;
  }

  lemma ExhaustedSoFar(c: StreamChunk, tail: seq<StreamChunk>, first: bool)
    requires tail != []
    ensures var reply := Exhausted(tail, first && c.text == "");
            Exhausted([c] + tail, first) == reply.(frames := TextFrames(c, first) + reply.frames)
  {
    hide TextsOnly, TextFrames;
    TextsOnlyCons(c, tail, first);
    var texts, rest := TextFrames(c, first), TextsOnly(tail, first && c.text == "");
    var seal := [UsageOf(tail[|tail| - 1]), DoneFrame];
    assert texts + rest + seal == texts + (rest + seal);
  }

  lemma ExhaustedAtOnce(c: StreamChunk, first: bool)
    requires c.done
    ensures Respond(Turns([c]), first) == Exhausted([c], first)
  {
    LastTurn(c, first);
    var none: seq<StreamChunk> := [];
    assert [c][1..] == none;
    assert TextsOnly([c], first) == TextFrames(c, first) + TextsOnly(none, first && c.text == "");
    assert Turns([c]) == [Next(c, false)] + Turns(none);
  }

  /** An exhausted run sends content frames, then one usage frame and one [DONE], and succeeds. */
  lemma {:induction false} ExhaustedRun(chunks: seq<StreamChunk>, first: bool)
    requires DoneLast(chunks)
    ensures Respond(Turns(chunks), first)
         == Reply(TextsOnly(chunks, first) + [UsageOf(chunks[|chunks| - 1]), DoneFrame],
                  Some("success"),
                  chunks[|chunks| - 1].generatedTokens)
  {
    hide Respond, TextsOnly;
    var c, tail := chunks[0], chunks[1..];
    assert chunks == [c] + tail;
    if tail == [] {
      assert chunks == [c];
      ExhaustedAtOnce(c, first);
    } else {
      assert Turns(chunks) == [Next(c, false)] + Turns(tail);
      ExhaustedRun(tail, first && c.text == "");
      assert Respond(Turns(tail), first && c.text == "") == Exhausted(tail, first && c.text == "");
      TextTurn(c, Turns(tail), first);
      ExhaustedSoFar(c, tail, first);
    }
    assert Respond(Turns(chunks), first) == Exhausted(chunks, first);
  }

  lemma {:induction false} AllDelivered(chunks: seq<StreamChunk>)
    ensures Delivered(Turns(chunks)) == chunks
  {
    if chunks != [] {
      AllDelivered(chunks[1..]);
      assert Turns(chunks)[1..] == Turns(chunks[1..]);
    }
  }
}
