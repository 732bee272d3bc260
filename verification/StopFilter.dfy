/**
 Removing stop strings from generated text: the whole-text form used for ordinary responses
 (TruncateAtStop), the online form used for streaming (BufferedStopFilter), and the exact
 condition on the stop strings under which the second refines the first.
 */
module StopFilter {
  import opened Sequences

  /******* Occurrences of a stop string *******/

  /** Some stop string begins at position p. */
  predicate StopAt(text: string, stops: seq<string>, p: nat) {
    exists s | s in stops :: OccursAt(text, s, p)
  }

  ghost predicate HasStop(text: string, stops: seq<string>) {
    exists p: nat :: StopAt(text, stops, p)
  }

  /** c is the position of the first stop in the text. */
  ghost predicate FirstStopAt(text: string, stops: seq<string>, c: nat) {
    StopAt(text, stops, c) && forall p: nat :: StopAt(text, stops, p) ==> c <= p
  }

  /** The request schema admits only non-empty stop strings. */
  predicate NonEmptyStops(stops: seq<string>) {
    forall s | s in stops :: s != ""
  }

  /******* Whole-text truncation *******/

  /** The lowest position at or after `start` where `stop` occurs, or -1. */
  function FindFrom(text: string, stop: string, start: nat): (p: int)
    ensures p < 0 ==> forall q: nat :: start <= q ==> !OccursAt(text, stop, q)
    ensures 0 <= p ==> start <= p && OccursAt(text, stop, p)
    ensures 0 <= p ==> forall q: nat :: start <= q && OccursAt(text, stop, q) ==> p <= q
    decreases |text| - start
  {
    if |text| < start + |stop| then -1
    else if OccursAt(text, stop, start) then start
    else if start == |text| then -1
    else FindFrom(text, stop, start + 1)
  }

  function Positions(text: string, stops: seq<string>): seq<nat> {
    if stops == [] then []
    else
      var p := FindFrom(text, stops[0], 0);
      (if 0 <= p then [p] else []) + Positions(text, stops[1..])
  }

  function Min(ps: seq<nat>): (m: nat)
    requires ps != []
    ensures m in ps && forall p | p in ps :: m <= p
  {
    if |ps| == 1 then ps[0]
    else
      var m := Min(ps[1..]);
      assert ps == [ps[0]] + ps[1..];
      if ps[0] <= m then ps[0] else m
  }

  /** The text before the first stop, and whether there was one. */
  function TruncateAtStop(text: string, stops: seq<string>): (string, bool) {
    var positions := Positions(text, stops);
    if positions == [] then (text, false) else (PrefixTo(text, Min(positions)), true)
  }

  /** Python's text[:n]. */
  function PrefixTo(text: string, n: nat): string {
    if n <= |text| then text[..n] else text
  }

  lemma {:induction false} PositionsOccur(text: string, stops: seq<string>, p: nat)
    requires p in Positions(text, stops)
    ensures StopAt(text, stops, p)
  {
    if p in Positions(text, stops[1..]) {
      PositionsOccur(text, stops[1..], p);
      var s :| s in stops[1..] && OccursAt(text, s, p);
      assert s in stops;
    } else {
      assert stops[0] in stops && OccursAt(text, stops[0], p);
    }
  }

  lemma {:induction false} PositionsReachBelow(text: string, stops: seq<string>, s: string, q: nat) returns (p: nat)
    requires s in stops && OccursAt(text, s, q)
    ensures p in Positions(text, stops) && p <= q
  {
    if s == stops[0] {
      p := FindFrom(text, s, 0);
    } else {
      assert s in stops[1..];
      p := PositionsReachBelow(text, stops[1..], s, q);
    }
  }

  /** Truncation cuts at the first stop, and leaves text without one alone. */
  lemma TruncationCutsAtFirstStop(text: string, stops: seq<string>)
    ensures var (kept, found) := TruncateAtStop(text, stops);
            && (found <==> HasStop(text, stops))
            && (!found ==> kept == text)
            && (found ==> kept <= text && FirstStopAt(text, stops, |kept|))
  {
    var positions := Positions(text, stops);
    forall s, q: nat | s in stops && OccursAt(text, s, q)
      ensures positions != [] && Min(positions) <= q
    {
      var p := PositionsReachBelow(text, stops, s, q);
    }
    if positions != [] {
      PositionsOccur(text, stops, Min(positions));
    }
  }

  /******* The streaming filter, as a step on values *******/

  datatype Filter = Filter(buffer: string, stopped: bool)

  const FRESH := Filter("", false)

  /** The longest stop minus one: how much text the filter holds back. */
  function TailChars(stops: seq<string>): (n: nat)
    ensures forall s | s in stops :: |s| <= n + 1
    ensures n == 0 || exists s | s in stops :: |s| == n + 1
  {
    if stops == [] then 0
    else
      var rest := TailChars(stops[1..]);
      assert forall s | s in stops[1..] :: s in stops;
      if |stops[0]| - 1 >= rest then assert stops[0] in stops; |stops[0]| - 1 else rest
  }

  function PushStep(stops: seq<string>, f: Filter, text: string): (Filter, string) {
    if f.stopped || text == "" then (f, "")
    else
      var buffer := f.buffer + text;
      var (truncated, stopped) := TruncateAtStop(buffer, stops);
      var tail := TailChars(stops);
      if stopped then (Filter("", true), truncated)
      else if |buffer| <= tail then (Filter(buffer, false), "")
      else (Filter(buffer[|buffer| - tail..], false), buffer[..|buffer| - tail])
  }

  function FinishStep(f: Filter): (Filter, string) {
    if f.stopped then (f, "") else (Filter("", false), f.buffer)
  }

  /** The filter and everything it has emitted after a sequence of pushes. */
  function Feed(stops: seq<string>, chunks: seq<string>): (Filter, string) {
    if chunks == [] then (FRESH, "")
    else
      var (f, out) := Feed(stops, chunks[..|chunks| - 1]);
      var (g, emitted) := PushStep(stops, f, chunks[|chunks| - 1]);
      (g, out + emitted)
  }

  /** Everything a client sees: all pushes, then the flush at the end. */
  function Streamed(stops: seq<string>, chunks: seq<string>): string {
    var (f, out) := Feed(stops, chunks);
    out + FinishStep(f).1
  }

  /** Everything a client sees of a response that is not streamed. */
  function Batch(stops: seq<string>, text: string): string {
    TruncateAtStop(text, stops).0
  }

  /******* The streaming filter, as the object the engine updates *******/

  class BufferedStopFilter {
    const stops: seq<string>
    const tailChars: nat
    var buffer: string
    var stopped: bool

    ghost predicate Valid() {
      NonEmptyStops(stops) && tailChars == TailChars(stops)
    }

    ghost function State(): Filter
      reads this
    {
      Filter(buffer, stopped)
    }

    constructor (stops: seq<string>)
      requires NonEmptyStops(stops)
      ensures Valid() && this.stops == stops && State() == FRESH
    {
      this.stops := stops;
      buffer, stopped := "", false;
      tailChars := TailChars(stops);
    }

    method Push(text: string) returns (emitted: string)
      requires Valid()
      modifies this`buffer, this`stopped
      ensures (State(), emitted) == PushStep(stops, old(State()), text)
    {
      if stopped || text == "" {
        return "";
      }
      buffer := buffer + text;
      var (truncated, found) := TruncateAtStop(buffer, stops);
      if found {
        buffer := "";
        stopped := true;
        return truncated;
      }
      if tailChars == 0 {
        assert buffer[|buffer|..] == "" && buffer[..|buffer|] == buffer;
        emitted, buffer := buffer, "";
        return;
      }
      if |buffer| <= tailChars {
        return "";
      }
      emitted := buffer[..|buffer| - tailChars];
      buffer := buffer[|buffer| - tailChars..];
    }

    method Finish() returns (emitted: string)
      modifies this`buffer
      ensures (State(), emitted) == FinishStep(old(State()))
    {
      if stopped {
        return "";
      }
      emitted, buffer := buffer, "";
    }
  }
}
