/**
 What the streaming filter computes, for every list of stop strings and every chunking, and
 exactly which lists of stop strings make it agree with whole-text truncation.
 */
module StopTheorems {
  import opened Sequences
  import opened StopFilter

  /******* Occurrences and prefixes *******/

  lemma OccursInLonger(a: string, b: string, s: string, p: nat)
    requires a <= b && OccursAt(a, s, p)
    ensures OccursAt(b, s, p)
  {
    assert b[p..p + |s|] == a[p..p + |s|];
  }

  lemma OccursInShorter(a: string, b: string, s: string, p: nat)
    requires a <= b && OccursAt(b, s, p) && p + |s| <= |a|
    ensures OccursAt(a, s, p)
  {
    assert a[p..p + |s|] == b[p..p + |s|];
  }

  lemma StopInShorter(a: string, b: string, stops: seq<string>, s: string, p: nat)
    requires a <= b && s in stops && OccursAt(b, s, p) && p + |s| <= |a|
    ensures StopAt(a, stops, p)
  {
    OccursInShorter(a, b, s, p);
  }

  lemma OccursBehind(e: string, b: string, s: string, p: nat)
    ensures OccursAt(b, s, p) <==> OccursAt(e + b, s, |e| + p)
  {
    if p + |s| <= |b| {
      assert (e + b)[|e| + p..|e| + p + |s|] == b[p..p + |s|];
    }
  }

  lemma FirstStopDecidesTruncation(text: string, stops: seq<string>, c: nat)
    requires FirstStopAt(text, stops, c)
    ensures c <= |text| && TruncateAtStop(text, stops) == (text[..c], true)
  {
    TruncationCutsAtFirstStop(text, stops);
    var kept := Batch(stops, text);
    assert kept == text[..|kept|];
  }

  /** Extending a text never moves its first stop to the right. */
  lemma LongerTextStopsNoLater(a: string, b: string, stops: seq<string>)
    requires a <= b && HasStop(a, stops)
    ensures HasStop(b, stops) && |Batch(stops, b)| <= |Batch(stops, a)| && Batch(stops, b) <= Batch(stops, a)
  {
    TruncationCutsAtFirstStop(a, stops);
    TruncationCutsAtFirstStop(b, stops);
    var c := |Batch(stops, a)|;
    var s :| s in stops && OccursAt(a, s, c);
    OccursInLonger(a, b, s, c);
    assert StopAt(b, stops, c);
  }

  /** Everything a cut leaves is free of stops. */
  lemma TruncationLeavesNoStop(text: string, stops: seq<string>)
    requires NonEmptyStops(stops)
    ensures !HasStop(Batch(stops, text), stops)
  {
    TruncationCutsAtFirstStop(text, stops);
    var kept := Batch(stops, text);
    forall p: nat ensures !StopAt(kept, stops, p) {
      if s :| s in stops && OccursAt(kept, s, p) {
        OccursInLonger(kept, text, s, p);
        assert StopAt(text, stops, p);
      }
    }
  }

  /******* One push *******/

  /** What the filter knows between pushes: e has been emitted, b is held back. */
  ghost predicate Window(stops: seq<string>, e: string, b: string) {
    !HasStop(e + b, stops) && |b| <= TailChars(stops) && (e == "" || |b| == TailChars(stops))
  }

  /** A stop completed by new text lies wholly in the held-back text and the new text. */
  lemma NewStopIsInWindow(stops: seq<string>, e: string, b: string, win: string, s: string, p: nat)
    requires Window(stops, e, b) && b <= win && s in stops && OccursAt(e + win, s, p)
    ensures |e| <= p && OccursAt(win, s, p - |e|)
  {
    assert p + |s| > |e + b| by {
      if p + |s| <= |e + b| {
        StopInShorter(e + b, e + win, stops, s, p);
      }
    }
    assert |s| <= TailChars(stops) + 1;
    OccursBehind(e, win, s, p - |e|);
  }

  lemma FirstStopInWindow(stops: seq<string>, e: string, b: string, win: string, c: nat)
    requires Window(stops, e, b) && b <= win && FirstStopAt(win, stops, c)
    ensures FirstStopAt(e + win, stops, |e| + c)
  {
    var s :| s in stops && OccursAt(win, s, c);
    OccursBehind(e, win, s, c);
    forall p: nat | StopAt(e + win, stops, p) ensures |e| + c <= p {
      var t :| t in stops && OccursAt(e + win, t, p);
      NewStopIsInWindow(stops, e, b, win, t, p);
      assert StopAt(win, stops, p - |e|);
    }
  }

  lemma StopInTextIsInWindow(stops: seq<string>, e: string, b: string, win: string)
    requires Window(stops, e, b) && b <= win && HasStop(e + win, stops)
    ensures HasStop(win, stops)
  {
    var p: nat :| StopAt(e + win, stops, p);
    var t :| t in stops && OccursAt(e + win, t, p);
    NewStopIsInWindow(stops, e, b, win, t, p);
    assert StopAt(win, stops, p - |e|);
  }

  lemma WindowWithStop(stops: seq<string>, e: string, b: string, win: string)
    requires Window(stops, e, b) && b <= win && TruncateAtStop(win, stops).1
    ensures TruncateAtStop(e + win, stops) == (e + Batch(stops, win), true)
  {
    hide Window, TruncateAtStop;
    var kept := Batch(stops, win);
    TruncationCutsAtFirstStop(win, stops);
    FirstStopInWindow(stops, e, b, win, |kept|);
    FirstStopDecidesTruncation(e + win, stops, |e| + |kept|);
    assert win[..|kept|] == kept;
    assert (e + win)[..|e| + |kept|] == e + kept;
  }

  lemma WindowWithoutStop(stops: seq<string>, e: string, b: string, win: string)
    requires Window(stops, e, b) && b <= win && !TruncateAtStop(win, stops).1
    ensures TruncateAtStop(e + win, stops) == (e + Batch(stops, win), false)
  {
    hide Window, TruncateAtStop, FirstStopAt, HasStop;
    TruncationCutsAtFirstStop(win, stops);
    TruncationCutsAtFirstStop(e + win, stops);
    if HasStop(e + win, stops) {
      StopInTextIsInWindow(stops, e, b, win);
    }
  }

  /** Truncating the window is truncating the whole text. */
  lemma WindowTruncation(stops: seq<string>, e: string, b: string, win: string)
    requires Window(stops, e, b) && b <= win
    ensures TruncateAtStop(win, stops).1 == TruncateAtStop(e + win, stops).1
    ensures e + Batch(stops, win) == Batch(stops, e + win)
    ensures TruncateAtStop(win, stops).1 <==> HasStop(e + win, stops)
  {
    hide Window, TruncateAtStop, FirstStopAt, HasStop;
    if TruncateAtStop(win, stops).1 {
      WindowWithStop(stops, e, b, win);
    } else {
      WindowWithoutStop(stops, e, b, win);
    }
    TruncationCutsAtFirstStop(e + win, stops);
  }

  /******* Every run *******/

  /** The text the filter has looked at: everything, up to the first chunk that completes a stop. */
  ghost function Seen(stops: seq<string>, chunks: seq<string>): string {
    if chunks == [] then ""
    else
      var before := Seen(stops, chunks[..|chunks| - 1]);
      if HasStop(before, stops) then before else before + chunks[|chunks| - 1]
  }

  lemma {:induction false} SeenIsPrefix(stops: seq<string>, chunks: seq<string>)
    ensures Seen(stops, chunks) <= Join(chunks)
    ensures !HasStop(Seen(stops, chunks), stops) ==> Seen(stops, chunks) == Join(chunks)
    ensures HasStop(Seen(stops, chunks), stops) <==> HasStop(Join(chunks), stops)
  {
    if chunks != [] {
      SeenIsPrefix(stops, chunks[..|chunks| - 1]);
    }
    if HasStop(Seen(stops, chunks), stops) {
      LongerTextStopsNoLater(Seen(stops, chunks), Join(chunks), stops);
    }
  }

  ghost predicate FilterMeans(stops: seq<string>, f: Filter, out: string, seen: string) {
    && (f.stopped <==> HasStop(seen, stops))
    && (f.stopped ==> f.buffer == "" && out == Batch(stops, seen))
    && (!f.stopped ==> out + f.buffer == seen && Window(stops, out, f.buffer))
  }

  /** A push that completes no stop moves text from the window to the output, and loses none. */
  lemma PushWithoutStop(stops: seq<string>, f: Filter, out: string, text: string)
    requires !f.stopped && text != "" && !TruncateAtStop(f.buffer + text, stops).1
    requires Window(stops, out, f.buffer) && !HasStop(out + (f.buffer + text), stops)
    ensures var (g, emitted) := PushStep(stops, f, text);
            !g.stopped && (out + emitted) + g.buffer == out + (f.buffer + text) && Window(stops, out + emitted, g.buffer)
  {
    hide TruncateAtStop, HasStop, TailChars;
    var (g, emitted) := PushStep(stops, f, text);
    var win := f.buffer + text;
    assert emitted + g.buffer == win;
    assert (out + emitted) + g.buffer == out + win;
    assert emitted == "" ==> out + emitted == out;
  }

  lemma PushKeepsMeaning(stops: seq<string>, f: Filter, out: string, seen: string, text: string)
    requires FilterMeans(stops, f, out, seen) && !f.stopped && NonEmptyStops(stops)
    ensures var (g, emitted) := PushStep(stops, f, text);
            FilterMeans(stops, g, out + emitted, seen + text)
  {
    hide TruncateAtStop, HasStop, TailChars, Window;
    if text == "" {
      assert seen + text == seen && out + "" == out;
    } else {
      var win := f.buffer + text;
      assert out + win == seen + text;
      WindowTruncation(stops, out, f.buffer, win);
      if !TruncateAtStop(win, stops).1 {
        PushWithoutStop(stops, f, out, text);
      }
    }
  }

  lemma {:induction false} FeedMeans(stops: seq<string>, chunks: seq<string>)
    requires NonEmptyStops(stops)
    ensures var (f, out) := Feed(stops, chunks);
            FilterMeans(stops, f, out, Seen(stops, chunks))
  {
    if chunks == [] {
      forall s, p: nat | s in stops ensures !OccursAt("", s, p) {
      }
      assert "" + "" == "";
    } else {
      var init := chunks[..|chunks| - 1];
      FeedMeans(stops, init);
      var (f, out) := Feed(stops, init);
      if f.stopped {
        assert out + "" == out;
      } else {
        PushKeepsMeaning(stops, f, out, Seen(stops, init), chunks[|chunks| - 1]);
      }
    }
  }

  /** The streamed result is whole-text truncation of the text that was looked at. */
  lemma StreamedIsBatchOfSeen(stops: seq<string>, chunks: seq<string>)
    requires NonEmptyStops(stops)
    ensures Streamed(stops, chunks) == Batch(stops, Seen(stops, chunks))
    ensures Feed(stops, chunks).0.stopped <==> HasStop(Join(chunks), stops)
  {
    FeedMeans(stops, chunks);
    SeenIsPrefix(stops, chunks);
    TruncationCutsAtFirstStop(Seen(stops, chunks), stops);
    var (f, out) := Feed(stops, chunks);
    if f.stopped {
      assert out + "" == out;
    }
  }

  /**
   With no condition on the stops: nothing is lost before a stop and the held-back text is the
   last TailChars characters; and at the end batch <= streamed <= text, with no stop streamed.
   */
  lemma Sandwich(stops: seq<string>, chunks: seq<string>)
    requires NonEmptyStops(stops)
    ensures var (f, out) := Feed(stops, chunks);
            && (f.stopped <==> HasStop(Join(chunks), stops))
            && (!f.stopped ==> out + f.buffer == Join(chunks))
            && (!f.stopped ==> |f.buffer| == if |Join(chunks)| < TailChars(stops) then |Join(chunks)| else TailChars(stops))
    ensures Batch(stops, Join(chunks)) <= Streamed(stops, chunks) <= Join(chunks)
    ensures !HasStop(Streamed(stops, chunks), stops)
  {
    FeedMeans(stops, chunks);
    SeenIsPrefix(stops, chunks);
    StreamedIsBatchOfSeen(stops, chunks);
    var seen := Seen(stops, chunks);
    TruncationCutsAtFirstStop(seen, stops);
    TruncationLeavesNoStop(seen, stops);
    if HasStop(seen, stops) {
      LongerTextStopsNoLater(seen, Join(chunks), stops);
    }
  }

  /******* Which stop strings are safe to stream *******/

  /** No other stop is a proper prefix of s. */
  predicate PrefixMinimal(stops: seq<string>, s: string) {
    forall t | t in stops :: !(t < s)
  }

  /** Some stop lies inside s, starting after its first character and ending before its last. */
  predicate HidesStop(stops: seq<string>, s: string) {
    exists t, k | t in stops && 1 <= k < |s| :: OccursAt(s, t, k) && k + |t| < |s|
  }

  predicate StreamSafe(stops: seq<string>) {
    forall s | s in stops && PrefixMinimal(stops, s) :: !HidesStop(stops, s)
  }

  /** Below every stop there is a prefix-minimal one. */
  lemma {:induction false} MinimalPrefix(stops: seq<string>, s: string) returns (m: string)
    requires s in stops
    ensures m in stops && m <= s && PrefixMinimal(stops, m)
    decreases |s|
  {
    if PrefixMinimal(stops, s) {
      m := s;
    } else {
      var t :| t in stops && t < s;
      m := MinimalPrefix(stops, t);
    }
  }

  /** An occurrence of m at p running past the end of a, over one of t inside a, hides t in m. */
  lemma OverlapHides(stops: seq<string>, a: string, b: string, m: string, p: nat, t: string, q: nat)
    requires a <= b && t in stops && OccursAt(b, m, p) && OccursAt(a, t, q) && p < q && |a| < p + |m|
    ensures HidesStop(stops, m)
  {
    var k := q - p;
    OccursInLonger(a, b, t, q);
    assert OccursAt(m, t, k) by {
      assert forall i | 0 <= i < |t| :: m[k + i] == b[p..p + |m|][k + i] == b[q..q + |t|][i] == t[i];
    }
  }

  /** If a longer text has an earlier first stop, that stop hides the one seen first. */
  lemma EarlierStopHides(stops: seq<string>, a: string, b: string)
    requires NonEmptyStops(stops) && a <= b && HasStop(a, stops) && |Batch(stops, b)| < |Batch(stops, a)|
    ensures !StreamSafe(stops)
  {
    TruncationCutsAtFirstStop(a, stops);
    TruncationCutsAtFirstStop(b, stops);
    LongerTextStopsNoLater(a, b, stops);
    var late, early := |Batch(stops, a)|, |Batch(stops, b)|;
    var t :| t in stops && OccursAt(a, t, late);
    var s :| s in stops && OccursAt(b, s, early);
    var m := MinimalPrefix(stops, s);
    OccursPrefix(b, s, m, early);
    assert |a| < early + |m| by {
      if early + |m| <= |a| {
        StopInShorter(a, b, stops, m, early);
      }
    }
    OverlapHides(stops, a, b, m, early, t, late);
  }

  lemma OccursPrefix(text: string, s: string, m: string, p: nat)
    requires m <= s && OccursAt(text, s, p)
    ensures OccursAt(text, m, p)
  {
    assert text[p..p + |m|] == s[..|m|];
  }

  lemma SafeStopsStreamExactly(stops: seq<string>, chunks: seq<string>)
    requires NonEmptyStops(stops) && StreamSafe(stops)
    ensures Streamed(stops, chunks) == Batch(stops, Join(chunks))
  {
    StreamedIsBatchOfSeen(stops, chunks);
    SeenIsPrefix(stops, chunks);
    var seen, all := Seen(stops, chunks), Join(chunks);
    if HasStop(seen, stops) {
      LongerTextStopsNoLater(seen, all, stops);
      if |Batch(stops, all)| < |Batch(stops, seen)| {
        EarlierStopHides(stops, seen, all);
      }
    }
  }

  lemma JoinPair(a: string, b: string)
    ensures Join([a]) == a && Join([a, b]) == a + b
  {
    assert [a, b][..1] == [a];
    var none: seq<string> := [];
    assert [a][..0] == none;
    assert Join(none) + a == a;
  }

  lemma SeenOfPair(stops: seq<string>, a: string, b: string)
    requires NonEmptyStops(stops)
    ensures Seen(stops, [a]) == a
    ensures Seen(stops, [a, b]) == if HasStop(a, stops) then a else a + b
  {
    var none: seq<string> := [];
    assert [a, b][..1] == [a] && [a][..0] == none;
    forall s, p: nat | s in stops ensures !OccursAt("", s, p) {
    }
    assert Seen(stops, none) + a == a;
  }

  /** Of a prefix-minimal stop, a proper prefix that holds a stop keeps some of its text. */
  lemma ProperPrefixKeepsText(stops: seq<string>, s: string, first: string)
    requires NonEmptyStops(stops) && PrefixMinimal(stops, s) && first < s && HasStop(first, stops)
    ensures Batch(stops, first) != ""
  {
    TruncationCutsAtFirstStop(first, stops);
    var c := |Batch(stops, first)|;
    var u :| u in stops && OccursAt(first, u, c);
    assert c == 0 ==> u < s;
  }

  /** A prefix-minimal stop fed in two pieces, the first holding another stop, streams too much. */
  lemma SplitStopLeaks(stops: seq<string>, first: string, second: string)
    requires NonEmptyStops(stops) && second != "" && HasStop(first, stops)
    requires first + second in stops && PrefixMinimal(stops, first + second)
    ensures Join([first, second]) == first + second
    ensures Batch(stops, first + second) == "" != Streamed(stops, [first, second])
  {
    var s := first + second;
    assert OccursAt(s, s, 0);
    FirstStopDecidesTruncation(s, stops, 0);
    ProperPrefixKeepsText(stops, s, first);
    SeenOfPair(stops, first, second);
    StreamedIsBatchOfSeen(stops, [first, second]);
    JoinPair(first, second);
  }

  lemma HiddenStopSplits(stops: seq<string>, s: string) returns (first: string, second: string)
    requires HidesStop(stops, s)
    ensures first + second == s && second != "" && HasStop(first, stops)
  {
    var t, k :| t in stops && 1 <= k < |s| && OccursAt(s, t, k) && k + |t| < |s|;
    first, second := s[..k + |t|], s[k + |t|..];
    StopInShorter(first, s, stops, t, k);
  }

  lemma UnsafeStopsLeak(stops: seq<string>) returns (chunks: seq<string>)
    requires NonEmptyStops(stops) && !StreamSafe(stops)
    ensures |chunks| == 2 && Join(chunks) in stops
    ensures Batch(stops, Join(chunks)) == "" != Streamed(stops, chunks)
  {
    var s :| s in stops && PrefixMinimal(stops, s) && HidesStop(stops, s);
    var first, second := HiddenStopSplits(stops, s);
    SplitStopLeaks(stops, first, second);
    chunks := [first, second];
  }

  /** The online filter refines whole-text truncation exactly for stream-safe stops. */
  lemma StreamingRefinesBatch(stops: seq<string>)
    requires NonEmptyStops(stops)
    ensures (forall chunks: seq<string> :: Streamed(stops, chunks) == Batch(stops, Join(chunks))) <==> StreamSafe(stops)
  {
    if StreamSafe(stops) {
      forall chunks: seq<string> ensures Streamed(stops, chunks) == Batch(stops, Join(chunks)) {
        SafeStopsStreamExactly(stops, chunks);
      }
    } else {
      var chunks := UnsafeStopsLeak(stops);
    }
  }

  /** The same condition decides whether the way a text is cut into chunks can be observed. */
  lemma ChunkingIsInvisible(stops: seq<string>)
    requires NonEmptyStops(stops)
    ensures (forall a: seq<string>, b: seq<string> | Join(a) == Join(b) :: Streamed(stops, a) == Streamed(stops, b))
            <==> StreamSafe(stops)
  {
    StreamingRefinesBatch(stops);
    if !StreamSafe(stops) {
      var chunks := UnsafeStopsLeak(stops);
      var whole := [Join(chunks)];
      JoinPair(Join(chunks), "");
      StreamedIsBatchOfSeen(stops, whole);
      assert whole[..0] == [];
      forall u, p: nat | u in stops ensures !OccursAt("", u, p) {
      }
      assert Seen(stops, []) == "";
      assert Seen(stops, whole) == Join(chunks);
      assert Streamed(stops, whole) != Streamed(stops, chunks);
    }
  }

  lemma ExampleFirstStop(stops: seq<string>)
    requires stops == ["ABCDE", "C"]
    ensures TruncateAtStop("ABC", stops) == ("AB", true)
  {
    assert stops[1] in stops && OccursAt("ABC", "C", 2);
    assert StopAt("ABC", stops, 2);
    forall s, p: nat | s in stops && OccursAt("ABC", s, p) ensures 2 <= p {
      assert s == "C";
      assert "ABC"[p..p + 1] == ["ABC"[p]] == ['C'];
    }
    FirstStopDecidesTruncation("ABC", stops, 2);
    assert "ABC"[..2] == "AB";
  }

  /** Stops ABCDE and C, fed as ABC then DE, stream AB where batch gives nothing. */
  lemma LeakExample(stops: seq<string>)
    requires stops == ["ABCDE", "C"]
    ensures Streamed(stops, ["ABC", "DE"]) == "AB" && Batch(stops, "ABCDE") == ""
  {
    assert stops[0] in stops && OccursAt("ABCDE", "ABCDE", 0);
    assert FirstStopAt("ABCDE", stops, 0);
    FirstStopDecidesTruncation("ABCDE", stops, 0);
    ExampleFirstStop(stops);
    TruncationCutsAtFirstStop("ABC", stops);
    SeenOfPair(stops, "ABC", "DE");
    StreamedIsBatchOfSeen(stops, ["ABC", "DE"]);
  }

  /******* After the filter has stopped *******/

  lemma {:induction false} FeedStoppedIgnores(stops: seq<string>, chunks: seq<string>, more: seq<string>)
    requires Feed(stops, chunks).0.stopped
    ensures Feed(stops, chunks + more) == Feed(stops, chunks)
  {
    if more == [] {
      assert chunks + more == chunks;
    } else {
      var init := more[..|more| - 1];
      FeedStoppedIgnores(stops, chunks, init);
      assert (chunks + more)[..|chunks + more| - 1] == chunks + init;
      assert (chunks + more)[|chunks + more| - 1] == more[|more| - 1];
      var (f, out) := Feed(stops, chunks);
      assert out + "" == out;
    }
  }

  /** Cancelling generation once the filter has stopped changes nothing a client can see. */
  lemma CancellationIsInvisible(stops: seq<string>, chunks: seq<string>, more: seq<string>)
    requires Feed(stops, chunks).0.stopped
    ensures Streamed(stops, chunks + more) == Streamed(stops, chunks) == Feed(stops, chunks).1
  {
    FeedStoppedIgnores(stops, chunks, more);
    var (f, out) := Feed(stops, chunks);
    assert out + "" == out;
  }
}
