/**
 Bounded admission: any number of generate and stream requests interleaving at their awaits,
 sharing a semaphore of permits and the in-progress gauge.
 */
module Admission {

  type RequestId = nat

  datatype Kind = Generate | Stream

  /** How a request ended; CloseRaised is a stream whose inner aclose raised. */
  datatype Ending = NotReady | CapacityExhausted | CancelledInQueue | Completed | CloseRaised

  datatype Phase =
    | Queued(kind: Kind)        // awaiting a permit
    | Running(kind: Kind)       // a permit is held; the engine is at work or the stream is suspended
    | Closing                   // a stream awaiting its inner aclose, permit still held
    | Ended(ending: Ending)

  /** releases logs every return of a permit. */
  datatype Gate = Gate(free: int, inProgress: int, requests: map<RequestId, Phase>, releases: multiset<RequestId>)

  datatype Action =
    | Submit(kind: Kind, ready: bool)  // the call begins, with the model ready or not
    | Acquired                         // the semaphore hands over a permit
    | QueueTimeout
    | Cancel                           // cancelled where it stands, or its client gone
    | EngineReturns
    | EngineRaises
    | Close                            // a suspended stream is closed early
    | Chunk                            // a stream passes on one chunk
    | InnerClosed(raised: bool)        // the engine stream's aclose completes

  function Start(permits: nat): Gate {
    Gate(permits, 0, map[], multiset{})
  }

  function Set(g: Gate, id: RequestId, p: Phase): Gate {
    g.(requests := g.requests[id := p])
  }

  function Release(g: Gate, id: RequestId, ending: Ending): Gate {
    Set(g, id, Ended(ending)).(free := g.free + 1, releases := g.releases + multiset{id})
  }

  /** One step of one request; an action that does not fit where it stands changes nothing. */
  function Apply(g: Gate, id: RequestId, a: Action): Gate {
    if id !in g.requests then
      if a.Submit? then Set(g, id, if a.ready then Queued(a.kind) else Ended(NotReady)) else g
    else match g.requests[id]
      case Queued(kind) =>
        if a.Acquired? && g.free > 0 then Set(g, id, Running(kind)).(free := g.free - 1, inProgress := g.inProgress + 1)
        else if a.QueueTimeout? then Set(g, id, Ended(CapacityExhausted))
        else if a.Cancel? then Set(g, id, Ended(CancelledInQueue))
        else g
      case Running(Generate) =>
        if a.EngineReturns? || a.EngineRaises? || a.Cancel? then
          Release(g, id, Completed).(inProgress := g.inProgress - 1)
        else g
      case Running(Stream) =>
        if a.EngineReturns? || a.EngineRaises? || a.Cancel? || a.Close? then Set(g, id, Closing) else g
      case Closing =>
        if a.InnerClosed? && !a.raised then Release(g, id, Completed).(inProgress := g.inProgress - 1)
        else if a.InnerClosed? || a.Cancel? then Release(g, id, CloseRaised)
        else g
      case Ended(_) => g
  }

  function Exec(g: Gate, steps: seq<(RequestId, Action)>): Gate
    decreases |steps|
  {
    if steps == [] then g else Exec(Apply(g, steps[0].0, steps[0].1), steps[1..])
  }

  lemma {:induction false} ExecSnoc(g: Gate, steps: seq<(RequestId, Action)>, id: RequestId, a: Action)
    ensures Exec(g, steps + [(id, a)]) == Apply(Exec(g, steps), id, a)
    decreases |steps|
  {
    hide Apply;
    if steps == [] {
      assert (steps + [(id, a)])[1..] == [];
    } else {
      ExecSnoc(Apply(g, steps[0].0, steps[0].1), steps[1..], id, a);
      assert (steps + [(id, a)])[1..] == steps[1..] + [(id, a)];
    }
  }

  /******* Conservation *******/

  predicate Holds(p: Phase) {
    p.Running? || p.Closing?
  }

  function Holders(g: Gate): set<RequestId> {
    set id | id in g.requests && Holds(g.requests[id])
  }

  /** Streams that ended without taking themselves off the gauge. */
  function Leaked(g: Gate): set<RequestId> {
    set id | id in g.requests && g.requests[id] == Ended(CloseRaised)
  }

  ghost predicate Conserved(g: Gate, permits: nat) {
    && g.free >= 0
    && g.free + |Holders(g)| == permits
    && g.inProgress == |Holders(g)| + |Leaked(g)|
    && ReleasedOnce(g)
  }

  function Count(b: bool): nat {
    if b then 1 else 0
  }

  predicate Held(g: Gate, id: RequestId) {
    id in g.requests && Holds(g.requests[id])
  }

  predicate Leaks(g: Gate, id: RequestId) {
    id in g.requests && g.requests[id] == Ended(CloseRaised)
  }

  predicate Returned(g: Gate, id: RequestId) {
    id in g.requests && GivenBack(g.requests[id])
  }

  /** Moving one request moves it alone in or out of a counted set. */
  lemma MovesAlone(before: set<RequestId>, after: set<RequestId>, id: RequestId, inside: bool)
    requires after == if inside then before + {id} else before - {id}
    ensures |after| + Count(id in before) == |before| + Count(inside)
  {
  }

  lemma HoldersCount(g: Gate, g': Gate, id: RequestId, p: Phase)
    requires g'.requests == g.requests[id := p]
    ensures |Holders(g')| + Count(Held(g, id)) == |Holders(g)| + Count(Holds(p))
  {
    hide Holds;
    MovesAlone(Holders(g), if Holds(p) then Holders(g) + {id} else Holders(g) - {id}, id, Holds(p));
    assert Holders(g') == if Holds(p) then Holders(g) + {id} else Holders(g) - {id};
  }

  lemma LeakedCount(g: Gate, g': Gate, id: RequestId, p: Phase)
    requires g'.requests == g.requests[id := p]
    ensures |Leaked(g')| + Count(Leaks(g, id)) == |Leaked(g)| + Count(p == Ended(CloseRaised))
  {
    var leaks := p == Ended(CloseRaised);
    MovesAlone(Leaked(g), if leaks then Leaked(g) + {id} else Leaked(g) - {id}, id, leaks);
    assert Leaked(g') == if leaks then Leaked(g) + {id} else Leaked(g) - {id};
  }

  ghost predicate ReleasedOnce(g: Gate) {
    forall id :: g.releases[id] == Count(Returned(g, id))
  }

  /** A permit has been given back at this phase. */
  predicate GivenBack(p: Phase) {
    p == Ended(Completed) || p == Ended(CloseRaised)
  }

  /** What a step that does anything does to the accounts, in terms of its own request alone. */
  ghost predicate Accounted(g: Gate, g': Gate, id: RequestId, p: Phase) {
    && g'.requests == g.requests[id := p] && !Returned(g, id)
    && g'.free + Count(Holds(p)) == g.free + Count(Held(g, id)) && (g.free >= 0 ==> g'.free >= 0)
    && g'.inProgress + Count(Held(g, id)) + Count(Leaks(g, id))
       == g.inProgress + Count(Holds(p)) + Count(p == Ended(CloseRaised))
    && g'.releases == if GivenBack(p) then g.releases + multiset{id} else g.releases
  }

  lemma StepIsAccounted(g: Gate, id: RequestId, a: Action)
    ensures var g' := Apply(g, id, a);
            g' == g || (id in g'.requests && Accounted(g, g', id, g'.requests[id]))
  {
  }

  lemma ReleasesMove(g: Gate, g': Gate, id: RequestId, p: Phase)
    requires ReleasedOnce(g) && Accounted(g, g', id, p)
    ensures ReleasedOnce(g')
  {
    forall k ensures g'.releases[k] == Count(Returned(g', k)) {
      assert g.releases[k] == Count(Returned(g, k));
    }
  }

  lemma StepConserves(g: Gate, id: RequestId, a: Action, permits: nat)
    requires Conserved(g, permits)
    ensures Conserved(Apply(g, id, a), permits)
  {
    hide Apply, Holders, Leaked, ReleasedOnce;
    StepIsAccounted(g, id, a);
    var g' := Apply(g, id, a);
    if g' != g {
      HoldersCount(g, g', id, g'.requests[id]);
      LeakedCount(g, g', id, g'.requests[id]);
      ReleasesMove(g, g', id, g'.requests[id]);
    }
  }

  /** However requests interleave and end: permits are neither lost nor duplicated, nobody releases
      twice, and the gauge exceeds the holders by exactly the streams whose aclose raised. */
  lemma {:induction false} EveryRunConserves(g: Gate, steps: seq<(RequestId, Action)>, permits: nat)
    requires Conserved(g, permits)
    ensures Conserved(Exec(g, steps), permits)
    decreases |steps|
  {
    if steps != [] {
      StepConserves(g, steps[0].0, steps[0].1, permits);
      EveryRunConserves(Apply(g, steps[0].0, steps[0].1), steps[1..], permits);
    }
  }

  lemma StartConserves(permits: nat)
    ensures Conserved(Start(permits), permits)
  {
    assert Holders(Start(permits)) == {} && Leaked(Start(permits)) == {};
  }

  /** From a fresh gate: never more holders than permits, and once none is left holding, every permit
      is back and a queued request can be admitted. */
  lemma PermitsComeBack(permits: nat, steps: seq<(RequestId, Action)>, id: RequestId)
    ensures var g := Exec(Start(permits), steps);
            && |Holders(g)| <= permits
            && g.releases[id] <= 1
            && (Holders(g) == {} ==> g.free == permits && g.inProgress == |Leaked(g)|)
            && (Holders(g) == {} && permits > 0 && id in g.requests && g.requests[id].Queued?
                ==> Held(Apply(g, id, Acquired), id))
  {
    StartConserves(permits);
    EveryRunConserves(Start(permits), steps, permits);
  }

  /******* What a request can count on *******/

  /** However a running generate ends, its permit and its place on the gauge come back. */
  lemma GenerateGivesBack(g: Gate, id: RequestId, how: Action)
    requires id in g.requests && g.requests[id] == Running(Generate)
    requires how in {EngineReturns, EngineRaises, Cancel}
    ensures var g' := Apply(g, id, how);
            && !Held(g', id) && g'.requests == g.requests[id := Ended(Completed)]
            && g'.free == g.free + 1 && g'.inProgress == g.inProgress - 1
            && g'.releases == g.releases + multiset{id}
  {
  }

  /** However a stream leaves its loop it still holds its permit, and gives it back when its inner stream is
      closed; the gauge follows unless that raises or is cancelled. */
  lemma StreamGivesBack(g: Gate, id: RequestId, how: Action, closing: Action)
    requires id in g.requests && g.requests[id] == Running(Stream)
    requires how in {EngineReturns, EngineRaises, Cancel, Close} && (closing.InnerClosed? || closing.Cancel?)
    ensures var g1 := Apply(g, id, how);
            Held(g1, id) && g1.free == g.free && g1.inProgress == g.inProgress && g1.releases == g.releases
    ensures var g2 := Apply(Apply(g, id, how), id, closing);
            var clean := closing == InnerClosed(false);
            && !Held(g2, id) && g2.free == g.free + 1
            && g2.inProgress == g.inProgress - (if clean then 1 else 0)
            && g2.requests == g.requests[id := Ended(if clean then Completed else CloseRaised)]
            && g2.releases == g.releases + multiset{id}
  {
    assert g.requests[id := Closing][id := Ended(Completed)] == g.requests[id := Ended(Completed)];
    assert g.requests[id := Closing][id := Ended(CloseRaised)] == g.requests[id := Ended(CloseRaised)];
  }

  /** A new request waits for a permit when the model is ready and is turned away otherwise; a waiting one is let
      in whenever a permit is free and only then, and leaves with nothing if it times out or is cancelled. */
  lemma QueueDecides(g: Gate, id: RequestId, kind: Kind, ready: bool)
    ensures id !in g.requests ==>
              Apply(g, id, Submit(kind, ready)) == Set(g, id, if ready then Queued(kind) else Ended(NotReady))
    ensures id in g.requests && g.requests[id] == Queued(kind) ==>
              var g' := Apply(g, id, Acquired);
              if g.free > 0 then
                Held(g', id) && g'.requests[id] == Running(kind)
                && g'.free == g.free - 1 && g'.inProgress == g.inProgress + 1
              else g' == g
    ensures id in g.requests && g.requests[id] == Queued(kind) ==>
              && Apply(g, id, QueueTimeout) == Set(g, id, Ended(CapacityExhausted))
              && Apply(g, id, Cancel) == Set(g, id, Ended(CancelledInQueue))
  {
  }

  /** One stream whose inner aclose raises is enough to leave the gauge at one with nobody running. */
  lemma AGaugeLeftBehind()
    ensures var g := Exec(Start(1), [(0, Submit(Stream, true)), (0, Acquired), (0, EngineReturns), (0, InnerClosed(true))]);
            g.requests == map[0 := Ended(CloseRaised)] && g.free == 1 && g.inProgress == 1 && Holders(g) == {}
  {
    var none: seq<(RequestId, Action)> := [];
    var a, b, c, d := (0, Submit(Stream, true)), (0, Acquired), (0, EngineReturns), (0, InnerClosed(true));
    assert none + [a] == [a] && [a] + [b] == [a, b] && [a, b] + [c] == [a, b, c] && [a, b, c] + [d] == [a, b, c, d];
    ExecSnoc(Start(1), none, 0, Submit(Stream, true));
    ExecSnoc(Start(1), [a], 0, Acquired);
    ExecSnoc(Start(1), [a, b], 0, EngineReturns);
    ExecSnoc(Start(1), [a, b, c], 0, InnerClosed(true));
    assert Exec(Start(1), [a, b]).requests == map[0 := Running(Stream)];
    assert Exec(Start(1), [a, b, c, d]).requests == map[0 := Ended(CloseRaised)];
  }
}
