/**
 The model's lifecycle: any number of overlapping initialize calls interleaving at their awaits under
 one lock, each free to succeed, raise or be cancelled at any stage; and shutdown, which does not
 take the lock.
 */
module Lifecycle {
  import opened EngineBase

  type CallId = nat

  datatype State = New | Resolving | Validating | Loading | Warming | Ready | Failed | Stopping | Stopped

  datatype Result = Skipped | Refused | Cancelled | Succeeded | Raised

  /** Where a call of initialize stands. */
  datatype Stage = Waiting | AtResolve | AtValidate | AtLoad | AtWarmup | AtUnload | Done(result: Result)

  /** What the calls did, in order. */
  datatype Event =
    | Began(id: CallId)
    | Resolved(id: CallId)
    | Validated(id: CallId, format: string)
    | LoadBegan(id: CallId)
    | Loaded(id: CallId)
    | Warmed(id: CallId)
    | GaveUp(id: CallId)
    | UnloadBegan(id: CallId)

  datatype Manager = Manager(
    state: State,
    holder: Option<CallId>,         // who holds the initialization lock
    calls: map<CallId, Stage>,
    error: bool,
    validation: Option<string>,     // the model format of the validated manifest
    loadedAt: bool,
    readyGauge: bool,
    modelLoads: nat,
    loadFailures: nat,
    shutdowns: nat,                 // shutdowns awaiting unload
    log: seq<Event>)

  datatype Action =
    | Call
    | Enter(storageRaises: bool)                    // the lock is handed over
    | Returns                                       // the awaited resolve, load, warm-up or unload returns
    | ValidationReturns(format: string, preflightRaises: bool)
    | Raises                                        // the await raises, or is cancelled
    | ShutdownBegins
    | ShutdownUnloads(raises: bool)

  function Start(): Manager {
    Manager(New, None, map[], false, None, false, false, 0, 0, 0, [])
  }

  function Goto(m: Manager, id: CallId, stage: Stage, events: seq<Event>): Manager {
    m.(calls := m.calls[id := stage], log := m.log + events)
  }

  function Finish(m: Manager, id: CallId, result: Result): Manager {
    m.(calls := m.calls[id := Done(result)], holder := None)
  }

  /** The except clause, up to its await of unload; the lock stays held. */
  function Fail(m: Manager, id: CallId): Manager {
    Goto(m, id, AtUnload, [GaveUp(id), UnloadBegan(id)])
      .(state := Failed, error := true, readyGauge := false, loadFailures := m.loadFailures + 1)
  }

  function Begin(m: Manager, id: CallId): Manager {
    Goto(m, id, AtResolve, [Began(id)]).(state := Resolving, holder := Some(id), error := false)
  }

  function EnterStep(m: Manager, id: CallId, storageRaises: bool): Manager {
    if m.state == Ready then Finish(m, id, Skipped)
    else if m.state != New && m.state != Failed then Finish(m, id, Refused)
    else if storageRaises then Fail(Begin(m, id), id)
    else Begin(m, id)
  }

  function ValidatedStep(m: Manager, id: CallId, configured: string, format: string, preflightRaises: bool): Manager {
    var validated := m.(log := m.log + [Validated(id, format)], validation := Some(format));
    if format != configured || preflightRaises then Fail(validated, id)
    else Goto(validated, id, AtLoad, [LoadBegan(id)]).(state := Loading)
  }

  function ResolvedStep(m: Manager, id: CallId): Manager {
    Goto(m, id, AtValidate, [Resolved(id)]).(state := Validating)
  }

  function LoadedStep(m: Manager, id: CallId): Manager {
    Goto(m, id, AtWarmup, [Loaded(id)]).(state := Warming, modelLoads := m.modelLoads + 1)
  }

  function WarmedStep(m: Manager, id: CallId): Manager {
    Finish(m.(log := m.log + [Warmed(id)], state := Ready, loadedAt := true, readyGauge := true), id, Succeeded)
  }

  /** One call from one await to the next; an action that does not fit where it stands changes nothing. */
  function CallStep(m: Manager, configured: string, id: CallId, a: Action): Manager
    requires id in m.calls
  {
    match m.calls[id]
    case Waiting =>
      if a.Enter? && m.holder.None? then EnterStep(m, id, a.storageRaises)
      else if a.Raises? then m.(calls := m.calls[id := Done(Cancelled)])
      else m
    case AtResolve =>
      if a.Returns? then ResolvedStep(m, id)
      else if a.Raises? then Fail(m, id) else m
    case AtValidate =>
      if a.ValidationReturns? then ValidatedStep(m, id, configured, a.format, a.preflightRaises)
      else if a.Raises? then Fail(m, id) else m
    case AtLoad =>
      if a.Returns? then LoadedStep(m, id)
      else if a.Raises? then Fail(m, id) else m
    case AtWarmup =>
      if a.Returns? then WarmedStep(m, id)
      else if a.Raises? then Fail(m, id) else m
    case AtUnload =>
      if a.Returns? || a.Raises? then Finish(m, id, Raised) else m
    case Done(_) => m
  }

  predicate IsShutdown(a: Action) {
    a.ShutdownBegins? || a.ShutdownUnloads?
  }

  function ShutdownStep(m: Manager, a: Action): Manager
    requires IsShutdown(a)
  {
    if a.ShutdownBegins? then
      if m.state == Stopping || m.state == Stopped then m
      else m.(state := Stopping, readyGauge := false, shutdowns := m.shutdowns + 1)
    else if m.shutdowns == 0 then m
    else m.(state := if a.raises then m.state else Stopped, shutdowns := m.shutdowns - 1)
  }

  function Apply(m: Manager, configured: string, id: CallId, a: Action): Manager {
    if IsShutdown(a) then ShutdownStep(m, a)
    else if id in m.calls then CallStep(m, configured, id, a)
    else if a.Call? then m.(calls := m.calls[id := Waiting])
    else m
  }

  function Exec(m: Manager, configured: string, steps: seq<(CallId, Action)>): Manager
    decreases |steps|
  {
    if steps == [] then m else Exec(Apply(m, configured, steps[0].0, steps[0].1), configured, steps[1..])
  }

  lemma {:induction false} ExecSnoc(m: Manager, configured: string, steps: seq<(CallId, Action)>, id: CallId, a: Action)
    ensures Exec(m, configured, steps + [(id, a)]) == Apply(Exec(m, configured, steps), configured, id, a)
    decreases |steps|
  {
    hide Apply;
    if steps == [] {
      assert (steps + [(id, a)])[1..] == [];
    } else {
      ExecSnoc(Apply(m, configured, steps[0].0, steps[0].1), configured, steps[1..], id, a);
      assert (steps + [(id, a)])[1..] == steps[1..] + [(id, a)];
    }
  }

  predicate NoShutdown(steps: seq<(CallId, Action)>) {
    forall k :: 0 <= k < |steps| ==> !IsShutdown(steps[k].1)
  }

  /******* The log: which event may directly follow which *******/

  predicate Follows(a: Event, b: Event, configured: string) {
    match a
    case Began(i) => b == Resolved(i) || b == GaveUp(i)
    case Resolved(i) => (b.Validated? && b.id == i) || b == GaveUp(i)
    case Validated(i, format) => (b == LoadBegan(i) && format == configured) || b == GaveUp(i)
    case LoadBegan(i) => b == Loaded(i) || b == GaveUp(i)
    case Loaded(i) => b == Warmed(i) || b == GaveUp(i)
    case Warmed(_) => false
    case GaveUp(i) => b == UnloadBegan(i)
    case UnloadBegan(_) => b.Began?
  }

  ghost predicate Orderly(log: seq<Event>, configured: string) {
    && (log != [] ==> log[0].Began?)
    && forall k :: 0 < k < |log| ==> Follows(log[k - 1], log[k], configured)
  }

  function CountLoaded(log: seq<Event>): nat {
    if log == [] then 0 else CountLoaded(log[..|log| - 1]) + if log[|log| - 1].Loaded? then 1 else 0
  }

  function CountGivenUp(log: seq<Event>): nat {
    if log == [] then 0 else CountGivenUp(log[..|log| - 1]) + if log[|log| - 1].GaveUp? then 1 else 0
  }

  /** Attempts that gave up right after their load succeeded. */
  function CountFailedAfterLoad(log: seq<Event>): nat {
    if |log| < 2 then 0
    else CountFailedAfterLoad(log[..|log| - 1]) + (if log[|log| - 1].GaveUp? && log[|log| - 2].Loaded? then 1 else 0)
  }

  /** The state the log's last event leaves. */
  function StateAfter(log: seq<Event>): State {
    if log == [] then New
    else match log[|log| - 1]
      case Began(_) => Resolving
      case Resolved(_) => Validating
      case Validated(_, _) => Validating
      case LoadBegan(_) => Loading
      case Loaded(_) => Warming
      case Warmed(_) => Ready
      case GaveUp(_) => Failed
      case UnloadBegan(_) => Failed
  }

  /******* What every run without shutdown keeps *******/

  predicate InPipeline(stage: Stage) {
    !stage.Waiting? && !stage.Done?
  }

  function StageOf(state: State): Stage
    requires state in {Resolving, Validating, Loading, Warming, Failed}
  {
    match state
    case Resolving => AtResolve
    case Validating => AtValidate
    case Loading => AtLoad
    case Warming => AtWarmup
    case Failed => AtUnload
  }

  /** The lock holder is the one call in the pipeline, standing where the state says. */
  ghost predicate Exclusive(m: Manager) {
    && (forall id :: id in m.calls && InPipeline(m.calls[id]) ==> m.holder == Some(id))
    && (forall id :: id in m.calls ==> m.calls[id] != Done(Refused))
    && (m.holder.None? ==> m.state in {New, Ready, Failed})
    && (m.holder.Some? ==>
          && m.state in {Resolving, Validating, Loading, Warming, Failed}
          && m.holder.value in m.calls
          && m.calls[m.holder.value] == StageOf(m.state))
  }

  ghost predicate Recorded(m: Manager, configured: string) {
    && Orderly(m.log, configured)
    && m.state == StateAfter(m.log)
    && (m.log != [] ==> !m.log[|m.log| - 1].GaveUp? && !m.log[|m.log| - 1].Validated?)
    && (m.log != [] && m.holder.Some? ==> m.holder.value == m.log[|m.log| - 1].id)
    && m.modelLoads == CountLoaded(m.log)
    && m.loadFailures == CountGivenUp(m.log)
    && m.readyGauge == (m.state == Ready)
    && m.error == (m.state == Failed)
    && (m.state == Ready ==> m.loadedAt)
    && (m.state in {Loading, Warming, Ready} ==> m.validation == Some(configured))
  }

  /** A call that holds the lock, or takes it free, may move on or finish. */
  lemma HolderMoves(m: Manager, m': Manager, id: CallId, stage: Stage)
    requires Exclusive(m) && (m.holder.None? || m.holder == Some(id))
    requires m'.calls == m.calls[id := stage] && stage != Done(Refused)
    requires
      if InPipeline(stage) then
        && m'.holder == Some(id)
        && m'.state in {Resolving, Validating, Loading, Warming, Failed} && stage == StageOf(m'.state)
      else m'.holder.None? && m'.state in {New, Ready, Failed}
    ensures Exclusive(m')
  {
  }

  lemma OutsiderMoves(m: Manager, m': Manager, id: CallId, stage: Stage)
    requires Exclusive(m) && m.holder != Some(id)
    requires m'.calls == m.calls[id := stage] && !InPipeline(stage) && stage != Done(Refused)
    requires m'.holder == m.holder && m'.state == m.state
    ensures Exclusive(m')
  {
  }

  lemma Standing(m: Manager, id: CallId)
    requires Exclusive(m) && id in m.calls
    ensures m.holder == Some(id) <==> InPipeline(m.calls[id])
    ensures InPipeline(m.calls[id]) ==>
              m.state in {Resolving, Validating, Loading, Warming, Failed} && m.calls[id] == StageOf(m.state)
    ensures m.holder.None? ==> m.state in {New, Ready, Failed}
  {
  }

  lemma FailMoves(m: Manager, id: CallId)
    ensures var m' := Fail(m, id);
            m'.calls == m.calls[id := AtUnload] && m'.state == Failed && m'.holder == m.holder
  {
  }

  lemma EnterMoves(m: Manager, id: CallId, storageRaises: bool)
    requires m.state in {New, Ready, Failed}
    ensures var m' := EnterStep(m, id, storageRaises);
            && id in m'.calls && m'.calls == m.calls[id := m'.calls[id]]
            && if m.state == Ready then m'.calls[id] == Done(Skipped) && m'.holder.None? && m'.state == Ready
               else m'.holder == Some(id) && m'.state in {Resolving, Failed} && m'.calls[id] == StageOf(m'.state)
  {
    if m.state != Ready {
      var begun := EnterStep(m, id, false);
      FailMoves(begun, id);
      assert begun.calls[id := AtUnload] == m.calls[id := AtUnload];
    }
  }

  lemma ValidatedMoves(m: Manager, configured: string, id: CallId, format: string, preflightRaises: bool)
    ensures var m' := ValidatedStep(m, id, configured, format, preflightRaises);
            && id in m'.calls && m'.calls == m.calls[id := m'.calls[id]]
            && m'.holder == m.holder && m'.state in {Loading, Failed} && m'.calls[id] == StageOf(m'.state)
  {
    FailMoves(m.(log := m.log + [Validated(id, format)], validation := Some(format)), id);
  }

  lemma ReturnMoves(m: Manager, configured: string, id: CallId)
    requires Exclusive(m) && id in m.calls && InPipeline(m.calls[id])
    ensures Exclusive(CallStep(m, configured, id, Returns))
  {
    Standing(m, id);
    hide Exclusive, EnterStep, ValidatedStep, Fail;
    var m' := CallStep(m, configured, id, Returns);
    if !m.calls[id].AtValidate? {
      HolderMoves(m, m', id, m'.calls[id]);
    }
  }

  lemma RaiseMoves(m: Manager, configured: string, id: CallId)
    requires Exclusive(m) && id in m.calls && InPipeline(m.calls[id])
    ensures Exclusive(CallStep(m, configured, id, Raises))
  {
    Standing(m, id);
    hide Exclusive, EnterStep, ValidatedStep, Fail;
    FailMoves(m, id);
    var m' := CallStep(m, configured, id, Raises);
    HolderMoves(m, m', id, m'.calls[id]);
  }

  lemma StepKeepsExclusive(m: Manager, configured: string, id: CallId, a: Action)
    requires Exclusive(m) && !IsShutdown(a)
    ensures Exclusive(Apply(m, configured, id, a))
  {
    hide EnterStep, ValidatedStep, Fail;
    var m' := Apply(m, configured, id, a);
    if id !in m.calls {
      assert m.holder != Some(id);
      if a.Call? {
        OutsiderMoves(m, m', id, Waiting);
      }
    } else {
      Standing(m, id);
      hide Exclusive;
      if m.calls[id].Done? {
      } else if !m.calls[id].Waiting? {
        if a.ValidationReturns? {
          ValidatedMoves(m, configured, id, a.format, a.preflightRaises);
          if m.calls[id].AtValidate? {
            HolderMoves(m, m', id, m'.calls[id]);
          }
        } else if a.Returns? {
          ReturnMoves(m, configured, id);
        } else if a.Raises? {
          RaiseMoves(m, configured, id);
        }
      } else if a.Enter? && m.holder.None? {
        EnterMoves(m, id, a.storageRaises);
        HolderMoves(m, m', id, m'.calls[id]);
      } else if a.Raises? {
        OutsiderMoves(m, m', id, Done(Cancelled));
      }
    }
  }

  lemma Logged(log: seq<Event>, e: Event, configured: string)
    requires Orderly(log, configured)
    requires if log == [] then e.Began? else Follows(log[|log| - 1], e, configured)
    ensures Orderly(log + [e], configured)
    ensures CountLoaded(log + [e]) == CountLoaded(log) + if e.Loaded? then 1 else 0
    ensures CountGivenUp(log + [e]) == CountGivenUp(log) + if e.GaveUp? then 1 else 0
  {
    assert (log + [e])[..|log|] == log;
  }

  lemma FailKeepsRecorded(m: Manager, configured: string, id: CallId)
    requires Orderly(m.log, configured) && m.log != [] && m.holder == Some(id)
    requires Follows(m.log[|m.log| - 1], GaveUp(id), configured)
    requires m.modelLoads == CountLoaded(m.log) && m.loadFailures == CountGivenUp(m.log)
    ensures Recorded(Fail(m, id), configured)
  {
    hide CountLoaded, CountGivenUp, Orderly, Follows;
    Logged(m.log, GaveUp(id), configured);
    assert Follows(GaveUp(id), UnloadBegan(id), configured) by { FollowsUnload(id, configured); }
    Logged(m.log + [GaveUp(id)], UnloadBegan(id), configured);
    assert Fail(m, id).log == m.log + [GaveUp(id)] + [UnloadBegan(id)];
  }

  lemma FollowsUnload(id: CallId, configured: string)
    ensures Follows(GaveUp(id), UnloadBegan(id), configured)
  {
  }

  lemma BeginFollows(log: seq<Event>, configured: string, id: CallId)
    requires StateAfter(log) in {New, Failed} && (log != [] ==> !log[|log| - 1].GaveUp?)
    ensures log == [] || Follows(log[|log| - 1], Began(id), configured)
    ensures Follows(Began(id), GaveUp(id), configured)
    ensures StateAfter(log + [Began(id)]) == Resolving
  {
  }

  lemma BeginKeepsRecorded(m: Manager, configured: string, id: CallId)
    requires Recorded(m, configured) && m.state in {New, Failed}
    ensures Recorded(Begin(m, id), configured)
    ensures Follows(Began(id), GaveUp(id), configured)
  {
    hide CountLoaded, CountGivenUp, Orderly, Follows, StateAfter;
    BeginFollows(m.log, configured, id);
    Logged(m.log, Began(id), configured);
    assert Begin(m, id).log == m.log + [Began(id)];
  }

  lemma EnterKeepsRecorded(m: Manager, configured: string, id: CallId, storageRaises: bool)
    requires Recorded(m, configured) && Exclusive(m) && m.holder.None?
    ensures Recorded(EnterStep(m, id, storageRaises), configured)
  {
    hide CountLoaded, CountGivenUp, Orderly, Fail, Follows;
    if m.state in {New, Failed} {
      BeginKeepsRecorded(m, configured, id);
      assert Begin(m, id).log == m.log + [Began(id)] && Begin(m, id).holder == Some(id);
      if storageRaises {
        FailKeepsRecorded(Begin(m, id), configured, id);
      }
    }
  }

  lemma ValidatedKeepsRecorded(m: Manager, configured: string, id: CallId, format: string, preflightRaises: bool)
    requires Recorded(m, configured) && m.holder == Some(id) && m.state == Validating
    ensures Recorded(ValidatedStep(m, id, configured, format, preflightRaises), configured)
  {
    hide CountLoaded, CountGivenUp, Orderly;
    Logged(m.log, Validated(id, format), configured);
    var log := m.log + [Validated(id, format)];
    if format != configured || preflightRaises {
      FailKeepsRecorded(m.(log := log, validation := Some(format)), configured, id);
    } else {
      Logged(log, LoadBegan(id), configured);
      assert ValidatedStep(m, id, configured, format, preflightRaises).log == log + [LoadBegan(id)];
    }
  }

  /** A stage of the call in the pipeline returns, and e is logged. */
  lemma AdvanceKeepsRecorded(m: Manager, m': Manager, e: Event, configured: string)
    requires Recorded(m, configured) && m.log != [] && Follows(m.log[|m.log| - 1], e, configured)
    requires !e.GaveUp? && !e.Validated? && m'.log == m.log + [e] && m'.state == StateAfter(m'.log)
    requires m'.holder.Some? ==> m'.holder.value == e.id
    requires m'.modelLoads == m.modelLoads + (if e.Loaded? then 1 else 0) && m'.loadFailures == m.loadFailures
    requires m'.readyGauge == (m'.state == Ready) && m'.error == (m'.state == Failed) && (m'.state == Ready ==> m'.loadedAt)
    requires m'.validation == m.validation && (m'.state in {Loading, Warming, Ready} ==> m.validation == Some(configured))
    ensures Recorded(m', configured)
  {
    hide CountLoaded, CountGivenUp, Orderly, Follows, StateAfter;
    Logged(m.log, e, configured);
  }

  lemma ReturnKeepsRecorded(m: Manager, configured: string, id: CallId)
    requires Recorded(m, configured) && Exclusive(m) && id in m.calls && InPipeline(m.calls[id])
    ensures Recorded(CallStep(m, configured, id, Returns), configured)
  {
    Standing(m, id);
    hide CountLoaded, CountGivenUp, Orderly, EnterStep, ValidatedStep, Fail, Exclusive;
    var m' := CallStep(m, configured, id, Returns);
    match m.calls[id]
    case AtResolve => AdvanceKeepsRecorded(m, m', Resolved(id), configured);
    case AtLoad => AdvanceKeepsRecorded(m, m', Loaded(id), configured);
    case AtWarmup => AdvanceKeepsRecorded(m, m', Warmed(id), configured);
    case _ =>
  }

  lemma RaiseKeepsRecorded(m: Manager, configured: string, id: CallId)
    requires Recorded(m, configured) && Exclusive(m) && id in m.calls && InPipeline(m.calls[id])
    ensures Recorded(CallStep(m, configured, id, Raises), configured)
  {
    Standing(m, id);
    hide CountLoaded, CountGivenUp, Orderly, EnterStep, ValidatedStep, Fail, Exclusive;
    if !m.calls[id].AtUnload? {
      FailKeepsRecorded(m, configured, id);
    }
  }

  lemma StepKeepsRecorded(m: Manager, configured: string, id: CallId, a: Action)
    requires Recorded(m, configured) && Exclusive(m) && !IsShutdown(a)
    ensures Recorded(Apply(m, configured, id, a), configured)
  {
    if id in m.calls {
      Standing(m, id);
      hide Orderly, Follows, EnterStep, ValidatedStep, Fail, Exclusive;
      var stage := m.calls[id];
      if InPipeline(stage) && a.Returns? {
        ReturnKeepsRecorded(m, configured, id);
      } else if InPipeline(stage) && a.Raises? {
        RaiseKeepsRecorded(m, configured, id);
      } else if stage.AtValidate? && a.ValidationReturns? {
        ValidatedKeepsRecorded(m, configured, id, a.format, a.preflightRaises);
      } else if stage.Waiting? && a.Enter? && m.holder.None? {
        EnterKeepsRecorded(m, configured, id, a.storageRaises);
      }
    }
  }

  lemma {:induction false} RunKeeps(m: Manager, configured: string, steps: seq<(CallId, Action)>)
    requires Exclusive(m) && Recorded(m, configured) && NoShutdown(steps)
    ensures Exclusive(Exec(m, configured, steps)) && Recorded(Exec(m, configured, steps), configured)
    decreases |steps|
  {
    hide Exclusive, Recorded, Apply;
    if steps != [] {
      var m' := Apply(m, configured, steps[0].0, steps[0].1);
      StepKeepsExclusive(m, configured, steps[0].0, steps[0].1);
      StepKeepsRecorded(m, configured, steps[0].0, steps[0].1);
      RunKeeps(m', configured, steps[1..]);
    }
  }

  /** Over any interleaving of initialize calls: one call at most is in the pipeline, none is refused,
      the events form an orderly log, and counters, gauge and error agree with it. */
  lemma EveryRun(configured: string, steps: seq<(CallId, Action)>)
    requires NoShutdown(steps)
    ensures Exclusive(Exec(Start(), configured, steps)) && Recorded(Exec(Start(), configured, steps), configured)
  {
    RunKeeps(Start(), configured, steps);
  }

  /******* What an orderly log says *******/

  function Rank(e: Event): nat {
    match e
    case Began(_) => 0
    case Resolved(_) => 1
    case Validated(_, _) => 2
    case LoadBegan(_) => 3
    case Loaded(_) => 4
    case Warmed(_) => 5
    case GaveUp(_) => 6
    case UnloadBegan(_) => 7
  }

  lemma {:induction false} Climbs(log: seq<Event>, configured: string, i: nat, j: nat)
    requires Orderly(log, configured) && i < j < |log|
    requires forall k :: i < k < j ==> !log[k].UnloadBegan?
    requires !log[i].UnloadBegan?
    ensures Rank(log[i]) < Rank(log[j])
    decreases j
  {
    assert Follows(log[j - 1], log[j], configured);
    if i < j - 1 {
      Climbs(log, configured, i, j - 1);
    }
  }

  /** The engine is never loaded twice without an unload attempted in between. */
  lemma UnloadBetweenLoads(log: seq<Event>, configured: string, i: nat, j: nat)
    requires Orderly(log, configured)
    requires i < j < |log| && log[i].LoadBegan? && log[j].LoadBegan?
    ensures exists k :: i < k < j && log[k].UnloadBegan?
  {
    if forall k :: i < k < j ==> !log[k].UnloadBegan? {
      Climbs(log, configured, i, j);
    }
  }

  /** The log ends with one call's whole attempt, validated in the configured format. */
  predicate EndsWithAttempt(log: seq<Event>, id: CallId, configured: string) {
    && |log| >= 6
    && log[|log| - 6..] == [Began(id), Resolved(id), Validated(id, configured), LoadBegan(id), Loaded(id), Warmed(id)]
  }

  /** A log that ends with a warm-up ends with one call's whole attempt. */
  lemma WarmedMeansOneWholeAttempt(log: seq<Event>, configured: string)
    requires Orderly(log, configured) && log != [] && log[|log| - 1].Warmed?
    ensures EndsWithAttempt(log, log[|log| - 1].id, configured)
  {
    var n := |log|;
    assert Follows(log[n - 2], log[n - 1], configured);
    assert Follows(log[n - 3], log[n - 2], configured);
    assert Follows(log[n - 4], log[n - 3], configured);
    assert Follows(log[n - 5], log[n - 4], configured);
    assert Follows(log[n - 6], log[n - 5], configured);
  }

  /** Every successful load is the current one or was given up after. */
  lemma {:induction false} LoadsAccounted(log: seq<Event>, configured: string)
    requires Orderly(log, configured)
    ensures CountLoaded(log) == CountFailedAfterLoad(log) + if StateAfter(log) in {Warming, Ready} then 1 else 0
  {
    if |log| > 1 {
      var before := log[..|log| - 1];
      LoadsAccounted(before, configured);
      assert before[|before| - 1] == log[|log| - 2];
      assert Follows(log[|log| - 2], log[|log| - 1], configured);
    }
  }

  /******* The promises *******/

  /** READY is reached only by one call's whole attempt, and successful loads are accounted for. */
  lemma ReadyMeansLoadedAndWarmed(configured: string, steps: seq<(CallId, Action)>)
    requires NoShutdown(steps)
    ensures var m := Exec(Start(), configured, steps);
            && (m.state == Ready ==>
                  && m.validation == Some(configured) && m.loadedAt && m.readyGauge && !m.error
                  && exists id :: EndsWithAttempt(m.log, id, configured))
            && m.modelLoads == CountFailedAfterLoad(m.log) + if m.state in {Warming, Ready} then 1 else 0
  {
    hide Exec, EndsWithAttempt, CountFailedAfterLoad, CountLoaded, CountGivenUp, Orderly, Exclusive;
    EveryRun(configured, steps);
    var m := Exec(Start(), configured, steps);
    LoadsAccounted(m.log, configured);
    if m.state == Ready {
      WarmedMeansOneWholeAttempt(m.log, configured);
    }
  }

  lemma ReadyStep(m: Manager, configured: string, id: CallId, a: Action)
    requires Exclusive(m) && m.state == Ready && !IsShutdown(a)
    ensures Apply(m, configured, id, a) == m.(calls := Apply(m, configured, id, a).calls)
  {
  }

  /** READY is absorbing: later calls change nothing but their own standing, so no load starts after it. */
  lemma {:induction false} ReadyIsAbsorbing(m: Manager, configured: string, steps: seq<(CallId, Action)>)
    requires Exclusive(m) && m.state == Ready && NoShutdown(steps)
    ensures Exec(m, configured, steps) == m.(calls := Exec(m, configured, steps).calls)
    decreases |steps|
  {
    hide Exclusive, Apply;
    if steps != [] {
      var m' := Apply(m, configured, steps[0].0, steps[0].1);
      ReadyStep(m, configured, steps[0].0, steps[0].1);
      StepKeepsExclusive(m, configured, steps[0].0, steps[0].1);
      ReadyIsAbsorbing(m', configured, steps[1..]);
    }
  }

  /******* Which step is which *******/

  lemma EnterApplies(m: Manager, configured: string, id: CallId, storageRaises: bool)
    requires id in m.calls && m.calls[id] == Waiting && m.holder.None?
    ensures Apply(m, configured, id, Enter(storageRaises)) == EnterStep(m, id, storageRaises)
  {
  }

  lemma ReturnApplies(m: Manager, configured: string, id: CallId)
    requires id in m.calls
    ensures m.calls[id] == AtResolve ==> Apply(m, configured, id, Returns) == ResolvedStep(m, id)
    ensures m.calls[id] == AtLoad ==> Apply(m, configured, id, Returns) == LoadedStep(m, id)
    ensures m.calls[id] == AtWarmup ==> Apply(m, configured, id, Returns) == WarmedStep(m, id)
    ensures m.calls[id] == AtUnload ==> Apply(m, configured, id, Returns) == Finish(m, id, Raised)
  {
  }

  lemma ValidatedApplies(m: Manager, configured: string, id: CallId, format: string, preflightRaises: bool)
    requires id in m.calls && m.calls[id] == AtValidate
    ensures Apply(m, configured, id, ValidationReturns(format, preflightRaises))
         == ValidatedStep(m, id, configured, format, preflightRaises)
  {
  }

  lemma RaiseApplies(m: Manager, configured: string, id: CallId)
    requires id in m.calls
    ensures WillAssign(m.calls[id]) ==> Apply(m, configured, id, Raises) == Fail(m, id)
    ensures m.calls[id] == AtUnload ==> Apply(m, configured, id, Raises) == Finish(m, id, Raised)
  {
  }

  /******* What a call can count on *******/

  /** From any manager with the lock free and the model neither READY nor stopping, a call all of whose stages
      return ends READY: loaded once, validated as configured, and the lock free again. */
  lemma AnAttemptSucceeds(m: Manager, configured: string, id: CallId)
    requires id in m.calls && m.calls[id] == Waiting && m.holder.None? && m.state in {New, Failed}
    ensures var m' := Exec(m, configured, [(id, Enter(false)), (id, Returns), (id, ValidationReturns(configured, false)),
                                           (id, Returns), (id, Returns)]);
            && m'.state == Ready && m'.holder.None? && m'.calls == m.calls[id := Done(Succeeded)]
            && m'.validation == Some(configured) && m'.loadedAt && m'.readyGauge && !m'.error
            && m'.modelLoads == m.modelLoads + 1 && m'.loadFailures == m.loadFailures
  {
    hide Apply, CallStep, Exec, Fail, EnterStep, ValidatedStep;
    var m1 := Begin(m, id);
    var m2 := ResolvedStep(m1, id);
    var m3 := Goto(m2.(log := m2.log + [Validated(id, configured)], validation := Some(configured)), id, AtLoad, [LoadBegan(id)])
      .(state := Loading);
    var m4 := LoadedStep(m3, id);
    Exec5(m, configured, (id, Enter(false)), (id, Returns), (id, ValidationReturns(configured, false)),
          (id, Returns), (id, Returns));
    EnterApplies(m, configured, id, false);
    ReturnApplies(m1, configured, id);
    ValidatedApplies(m2, configured, id, configured, false);
    StepsOfAnAttempt(m, m2, configured, id);
    ReturnApplies(m3, configured, id);
    ReturnApplies(m4, configured, id);
  }

  lemma StepsOfAnAttempt(m: Manager, m2: Manager, configured: string, id: CallId)
    requires m.state in {New, Failed}
    ensures EnterStep(m, id, false) == Begin(m, id)
    ensures ValidatedStep(m2, id, configured, configured, false)
         == Goto(m2.(log := m2.log + [Validated(id, configured)], validation := Some(configured)), id, AtLoad, [LoadBegan(id)])
              .(state := Loading)
  {
  }

  lemma Exec2(m: Manager, configured: string, a: (CallId, Action), b: (CallId, Action))
    ensures Exec(m, configured, [a, b]) == Apply(Apply(m, configured, a.0, a.1), configured, b.0, b.1)
  {
    hide Apply;
    var none: seq<(CallId, Action)> := [];
    assert [a, b][1..] == [b] && [b][1..] == none;
    var m1 := Apply(m, configured, a.0, a.1);
    var m2 := Apply(m1, configured, b.0, b.1);
    assert Exec(m, configured, [a, b]) == Exec(m1, configured, [b]);
    assert Exec(m1, configured, [b]) == Exec(m2, configured, none) == m2;
  }

  lemma Exec5(m: Manager, configured: string, a: (CallId, Action), b: (CallId, Action), c: (CallId, Action),
              d: (CallId, Action), e: (CallId, Action))
    ensures var m2 := Apply(Apply(m, configured, a.0, a.1), configured, b.0, b.1);
            var m4 := Apply(Apply(m2, configured, c.0, c.1), configured, d.0, d.1);
            Exec(m, configured, [a, b, c, d, e]) == Apply(m4, configured, e.0, e.1)
  {
    hide Apply;
    Exec2(m, configured, a, b);
    ExecSnoc(m, configured, [a, b], c.0, c.1);
    ExecSnoc(m, configured, [a, b, c], d.0, d.1);
    ExecSnoc(m, configured, [a, b, c, d], e.0, e.1);
    assert [a, b] + [c] == [a, b, c] && [a, b, c] + [d] == [a, b, c, d] && [a, b, c, d] + [e] == [a, b, c, d, e];
  }

  /** A call that raises or is cancelled at any stage ends raised, whatever becomes of the unload: the model is
      FAILED, one more failure is counted, the unload was attempted and the lock is free for a retry. */
  lemma AFailureEnds(m: Manager, configured: string, id: CallId, unload: Action)
    requires id in m.calls && WillAssign(m.calls[id]) && (unload.Returns? || unload.Raises?)
    ensures var m' := Exec(m, configured, [(id, Raises), (id, unload)]);
            && m'.state == Failed && m'.error && !m'.readyGauge && m'.holder.None?
            && m'.calls == m.calls[id := Done(Raised)]
            && m'.loadFailures == m.loadFailures + 1 && m'.modelLoads == m.modelLoads
            && m'.log == m.log + [GaveUp(id), UnloadBegan(id)]
  {
    hide Apply, CallStep, Exec;
    Exec2(m, configured, (id, Raises), (id, unload));
    RaiseApplies(m, configured, id);
    RaiseApplies(Fail(m, id), configured, id);
    ReturnApplies(Fail(m, id), configured, id);
    assert m.calls[id := AtUnload][id := Done(Raised)] == m.calls[id := Done(Raised)];
  }

  /** Validation decides: the configured format and a passing preflight go on to load, anything else gives up
      without one. */
  lemma ValidationDecides(m: Manager, configured: string, id: CallId, format: string, preflightRaises: bool)
    requires id in m.calls && m.calls[id] == AtValidate
    ensures var m' := Apply(m, configured, id, ValidationReturns(format, preflightRaises));
            && m'.validation == Some(format)
            && if format == configured && !preflightRaises then
                 m'.state == Loading && m'.calls[id] == AtLoad && m'.log == m.log + [Validated(id, format), LoadBegan(id)]
               else
                 && m'.state == Failed && m'.calls[id] == AtUnload
                 && m'.log == m.log + [Validated(id, format), GaveUp(id), UnloadBegan(id)]
  {
  }

  /** A call that gets the lock when the model is READY, or stopping, ends at once and changes nothing else; so
      does one cancelled while it waits. */
  lemma ALateCallEnds(m: Manager, configured: string, id: CallId, storageRaises: bool)
    requires id in m.calls && m.calls[id] == Waiting
    ensures m.holder.None? && m.state == Ready ==>
              Apply(m, configured, id, Enter(storageRaises)) == m.(calls := m.calls[id := Done(Skipped)])
    ensures m.holder.None? && Ended(m) ==>
              Apply(m, configured, id, Enter(storageRaises)) == m.(calls := m.calls[id := Done(Refused)])
    ensures Apply(m, configured, id, Raises) == m.(calls := m.calls[id := Done(Cancelled)])
    ensures m.holder.Some? ==> Apply(m, configured, id, Enter(storageRaises)) == m
  {
  }

  /******* Shutdown *******/

  /** A call that will still assign a state when it resumes. */
  predicate WillAssign(stage: Stage) {
    stage in {AtResolve, AtValidate, AtLoad, AtWarmup}
  }

  predicate Ended(m: Manager) {
    m.state == Stopping || m.state == Stopped
  }

  ghost predicate Quiet(m: Manager) {
    Ended(m) && forall id :: id in m.calls ==> !WillAssign(m.calls[id])
  }

  lemma QuietStep(m: Manager, configured: string, id: CallId, a: Action)
    requires Quiet(m)
    ensures Quiet(Apply(m, configured, id, a)) && Apply(m, configured, id, a).log == m.log
  {
    hide Fail, ValidatedStep;
    if !IsShutdown(a) && id in m.calls {
      assert !WillAssign(m.calls[id]);
    }
  }

  lemma {:induction false} QuietStays(m: Manager, configured: string, steps: seq<(CallId, Action)>)
    requires Quiet(m)
    ensures Quiet(Exec(m, configured, steps)) && Exec(m, configured, steps).log == m.log
    decreases |steps|
  {
    hide Quiet, Apply;
    if steps != [] {
      QuietStep(m, configured, steps[0].0, steps[0].1);
      QuietStays(Apply(m, configured, steps[0].0, steps[0].1), configured, steps[1..]);
    }
  }

  /** Shutdown is final exactly when no initialize is between its first await and the end of its warm-up. */
  lemma ShutdownIsFinal(m: Manager, configured: string)
    requires !Ended(m)
    ensures (forall steps :: Ended(Exec(Apply(m, configured, 0, ShutdownBegins), configured, steps)))
            <==> (forall id :: id in m.calls ==> !WillAssign(m.calls[id]))
  {
    var m' := Apply(m, configured, 0, ShutdownBegins);
    if id :| id in m.calls && WillAssign(m.calls[id]) {
      ARaiseUndoes(m', configured, id);
    } else {
      assert Quiet(m');
      forall steps ensures Ended(Exec(m', configured, steps)) {
        QuietStays(m', configured, steps);
      }
    }
  }

  /** Such a run exists: one call begins, a shutdown follows, and the call is cancelled or fails. */
  lemma AShutdownUndone(configured: string)
    ensures var run := [(0, Call), (0, Enter(false)), (1, ShutdownBegins)];
            && Exec(Start(), configured, run).state == Stopping
            && Exec(Start(), configured, run + [(0, Raises)]).state == Failed
  {
    var m1 := Apply(Start(), configured, 0, Call);
    var m2 := Apply(m1, configured, 0, Enter(false));
    var m3 := Apply(m2, configured, 1, ShutdownBegins);
    assert m2.calls == map[0 := AtResolve];
    var none: seq<(CallId, Action)> := [];
    assert Exec(m3, configured, none) == m3;
    var run := [(0, Call), (0, Enter(false)), (1, ShutdownBegins)];
    ExecSnoc(Start(), configured, none, 0, Call);
    ExecSnoc(Start(), configured, [(0, Call)], 0, Enter(false));
    ExecSnoc(Start(), configured, [(0, Call), (0, Enter(false))], 1, ShutdownBegins);
    ExecSnoc(Start(), configured, run, 0, Raises);
    assert none + [(0, Call)] == [(0, Call)];
    assert [(0, Call)] + [(0, Enter(false))] == [(0, Call), (0, Enter(false))];
    assert [(0, Call), (0, Enter(false))] + [(1, ShutdownBegins)] == run;
  }

  /** A shutdown withdraws readiness at once and ends STOPPED, or stays stopping if unload raises. */
  lemma ShutdownStops(m: Manager, configured: string, raises: bool)
    requires !Ended(m)
    ensures var begun := Apply(m, configured, 0, ShutdownBegins);
            begun.state == Stopping && !begun.readyGauge && begun.log == m.log && begun.calls == m.calls
    ensures Exec(m, configured, [(0, ShutdownBegins), (0, ShutdownUnloads(raises))]).state
         == if raises then Stopping else Stopped
  {
    Exec2(m, configured, (0, ShutdownBegins), (0, ShutdownUnloads(raises)));
  }

  lemma ARaiseUndoes(m: Manager, configured: string, id: CallId)
    requires id in m.calls && WillAssign(m.calls[id])
    ensures Exec(m, configured, [(id, Raises)]).state == Failed
  {
    FailMoves(m, id);
    var steps := [(id, Raises)];
    assert steps[1..] == [];
    assert Exec(m, configured, steps) == Exec(Apply(m, configured, id, Raises), configured, []);
  }
}
