/**
 The model manager as the object it is: one method per stretch of code between two awaits, each
 updating the fields in the source's order and proved to be one step of the lifecycle or of the gate.
 The object records its runs, so that what holds of every run can be read off its fields.
 */
module Manager {
  import opened EngineBase
  import L = Lifecycle
  import G = Admission

  /** Some request got past the readiness check. */
  ghost predicate Admitted(requests: map<G.RequestId, G.Phase>) {
    exists id :: id in requests && requests[id] != G.Ended(G.NotReady)
  }

  /** Requests get past the readiness check only once the model is READY, which it then stays. */
  ghost predicate Served(life: L.Manager, lifeSteps: seq<(L.CallId, L.Action)>, requests: map<G.RequestId, G.Phase>) {
    L.NoShutdown(lifeSteps) && Admitted(requests) ==> life.state == L.Ready
  }

  lemma LifeStepServes(format: string, steps: seq<(L.CallId, L.Action)>, id: L.CallId, a: L.Action,
                       requests: map<G.RequestId, G.Phase>)
    requires Served(L.Exec(L.Start(), format, steps), steps, requests)
    ensures Served(L.Exec(L.Start(), format, steps + [(id, a)]), steps + [(id, a)], requests)
  {
    hide L.Exec, L.Apply, L.Exclusive, L.Recorded, Admitted;
    var all := steps + [(id, a)];
    if L.NoShutdown(all) {
      assert all[|steps|] == (id, a);
      assert forall k :: 0 <= k < |steps| ==> steps[k] == all[k];
      L.EveryRun(format, steps);
      L.ExecSnoc(L.Start(), format, steps, id, a);
      var before := L.Exec(L.Start(), format, steps);
      if before.state == L.Ready {
        L.ReadyStep(before, format, id, a);
      }
    }
  }

  lemma GateStepServes(life: L.Manager, lifeSteps: seq<(L.CallId, L.Action)>, g: G.Gate, id: G.RequestId, a: G.Action)
    requires Served(life, lifeSteps, g.requests)
    requires a.Submit? && id !in g.requests ==> a.ready == (life.state == L.Ready)
    ensures Served(life, lifeSteps, G.Apply(g, id, a).requests)
  {
    var now := G.Apply(g, id, a).requests;
    if Admitted(now) && life.state != L.Ready {
      var k :| k in now && now[k] != G.Ended(G.NotReady);
      if k in g.requests && g.requests[k] != G.Ended(G.NotReady) {
        assert Admitted(g.requests);
      }
    }
  }

  class ModelManager {
    const modelFormat: string     // the configured MODEL_FORMAT
    const maxConcurrentRequests: nat

    var state: L.State
    var error: bool
    var validation: Option<string>
    var loadedAt: bool
    var readyGauge: bool
    var modelLoads: nat
    var loadFailures: nat
    var lock: Option<L.CallId>
    var calls: map<L.CallId, L.Stage>
    var shutdowns: nat
    ghost var log: seq<L.Event>
    ghost var lifeSteps: seq<(L.CallId, L.Action)>

    var capacity: int
    var inProgress: int
    var requests: map<G.RequestId, G.Phase>
    ghost var releases: multiset<G.RequestId>
    ghost var gateSteps: seq<(G.RequestId, G.Action)>

    ghost function Lifecycle(): L.Manager
      reads this`state, this`lock, this`calls, this`error, this`validation, this`loadedAt, this`readyGauge,
            this`modelLoads, this`loadFailures, this`shutdowns, this`log
    {
      L.Manager(state, lock, calls, error, validation, loadedAt, readyGauge, modelLoads, loadFailures, shutdowns, log)
    }

    ghost function Gate(): G.Gate
      reads this`capacity, this`inProgress, this`requests, this`releases
    {
      G.Gate(capacity, inProgress, requests, releases)
    }

    /** Where the recorded runs lead. */
    ghost function Life(): L.Manager
      reads this`lifeSteps
    {
      L.Exec(L.Start(), modelFormat, lifeSteps)
    }

    ghost function Requests(): G.Gate
      reads this`gateSteps
    {
      G.Exec(G.Start(maxConcurrentRequests), gateSteps)
    }

    /** The fields are where the recorded runs lead, and requests were only let in when READY. */
    ghost predicate Valid()
      reads this
    {
      Lifecycle() == Life() && Gate() == Requests() && Served(Life(), lifeSteps, requests)
    }

    constructor (modelFormat: string, maxConcurrentRequests: nat)
      ensures this.modelFormat == modelFormat && this.maxConcurrentRequests == maxConcurrentRequests
      ensures Valid() && lifeSteps == [] && gateSteps == []
    {
      this.modelFormat, this.maxConcurrentRequests := modelFormat, maxConcurrentRequests;
      state, error, validation, loadedAt := L.New, false, None, false;
      readyGauge, modelLoads, loadFailures := false, 0, 0;
      lock, calls, shutdowns, log := None, map[], 0, [];
      capacity, inProgress, requests, releases := maxConcurrentRequests, 0, map[], multiset{};
      lifeSteps, gateSteps := [], [];
    }

    /** The lifecycle's fields have just made one step of the run. */
    ghost method RecordLife(before: L.Manager, id: L.CallId, a: L.Action)
      requires before == Life() && Lifecycle() == L.Apply(before, modelFormat, id, a)
      requires Gate() == Requests() && Served(Life(), lifeSteps, requests)
      modifies this`lifeSteps
      ensures Valid() && lifeSteps == old(lifeSteps) + [(id, a)]
      ensures Lifecycle() == L.Apply(before, modelFormat, id, a)
    {
      hide L.Exec, L.Apply, Served;
      L.ExecSnoc(L.Start(), modelFormat, lifeSteps, id, a);
      LifeStepServes(modelFormat, lifeSteps, id, a, requests);
      lifeSteps := lifeSteps + [(id, a)];
    }

    /** The gate's fields have just made one step of the run. */
    ghost method RecordGate(before: G.Gate, id: G.RequestId, a: G.Action)
      requires Lifecycle() == Life() && before == Requests() && Gate() == G.Apply(before, id, a)
      requires Served(Life(), lifeSteps, before.requests)
      requires a.Submit? && id !in before.requests ==> a.ready == (state == L.Ready)
      modifies this`gateSteps
      ensures Valid() && gateSteps == old(gateSteps) + [(id, a)]
      ensures Gate() == G.Apply(before, id, a)
    {
      hide L.Exec, G.Exec, G.Apply, Served;
      G.ExecSnoc(G.Start(maxConcurrentRequests), gateSteps, id, a);
      GateStepServes(Life(), lifeSteps, Requests(), id, a);
      gateSteps := gateSteps + [(id, a)];
    }

    /******* What every run promises, on the fields *******/

    /** Without a shutdown: at most one initialize is in the pipeline, READY stands for one whole validated,
        loaded and warmed attempt, and successful loads are accounted for. */
    lemma LifecyclePromises()
      requires Valid() && L.NoShutdown(lifeSteps)
      ensures state == L.Ready ==> validation == Some(modelFormat) && loadedAt && readyGauge && !error
      ensures forall id, other :: id in calls && other in calls && L.InPipeline(calls[id]) && L.InPipeline(calls[other]) ==>
                id == other
      ensures modelLoads == L.CountFailedAfterLoad(log) + if state in {L.Warming, L.Ready} then 1 else 0
    {
      L.ReadyMeansLoadedAndWarmed(modelFormat, lifeSteps);
      L.EveryRun(modelFormat, lifeSteps);
    }

    /** Permits and gauge: nothing is lost or handed out twice. */
    lemma AdmissionPromises()
      requires Valid()
      ensures 0 <= capacity && capacity + |G.Holders(Gate())| == maxConcurrentRequests
      ensures inProgress == |G.Holders(Gate())| + |G.Leaked(Gate())|
      ensures forall id :: releases[id] <= 1
    {
      G.StartConserves(maxConcurrentRequests);
      G.EveryRunConserves(G.Start(maxConcurrentRequests), gateSteps, maxConcurrentRequests);
    }

    /** Without a shutdown, whoever holds a permit is served by a model that is READY, validated in the
        configured format. */
    lemma HoldersAreServed(id: G.RequestId)
      requires Valid() && L.NoShutdown(lifeSteps) && G.Held(Gate(), id)
      ensures state == L.Ready && validation == Some(modelFormat) && readyGauge
    {
      assert Admitted(requests);
      LifecyclePromises();
    }

    /******* initialize *******/

    method Call(id: L.CallId)
      requires Valid() && id !in calls
      modifies this`calls, this`lifeSteps
      ensures Valid() && lifeSteps == old(lifeSteps) + [(id, L.Call)]
      ensures Lifecycle() == L.Apply(old(Lifecycle()), modelFormat, id, L.Call)
      ensures calls == old(calls)[id := L.Waiting]
    {
      hide Life, Requests, Gate, Served;
      calls := calls[id := L.Waiting];
      RecordLife(old(Lifecycle()), id, L.Call);
    }

    /** The except clause up to its await; every stage's failure comes here. */
    method GiveUp(id: L.CallId)
      modifies this`state, this`error, this`readyGauge, this`loadFailures, this`calls, this`log
      ensures Lifecycle() == L.Fail(old(Lifecycle()), id)
      ensures state == L.Failed && error && !readyGauge && loadFailures == old(loadFailures) + 1
      ensures calls == old(calls)[id := L.AtUnload]
    {
      state := L.Failed;
      error := true;
      readyGauge := false;
      loadFailures := loadFailures + 1;
      calls := calls[id := L.AtUnload];
      log := log + [L.GaveUp(id), L.UnloadBegan(id)];
    }

    /** The attempt begins, its error cleared. */
    method Begin(id: L.CallId)
      modifies this`state, this`error, this`lock, this`calls, this`log
      ensures Lifecycle() == L.Begin(old(Lifecycle()), id)
      ensures state == L.Resolving && !error && lock == Some(id) && calls == old(calls)[id := L.AtResolve]
    {
      lock := Some(id);
      error := false;
      state := L.Resolving;
      calls := calls[id := L.AtResolve];
      log := log + [L.Began(id)];
    }

    /** What the lock finds: READY, a state to refuse, or an attempt to begin. */
    method Enter(id: L.CallId, storageRaises: bool)
      requires lock.None?
      modifies this`state, this`error, this`readyGauge, this`loadFailures, this`lock, this`calls, this`log
      ensures Lifecycle() == L.EnterStep(old(Lifecycle()), id, storageRaises)
      ensures if old(state) == L.Ready then
                state == L.Ready && calls == old(calls)[id := L.Done(L.Skipped)] && lock.None?
              else if old(state) != L.New && old(state) != L.Failed then
                state == old(state) && calls == old(calls)[id := L.Done(L.Refused)] && lock.None?
              else if storageRaises then
                state == L.Failed && id in calls && calls[id] == L.AtUnload && lock == Some(id)
                && error && !readyGauge && loadFailures == old(loadFailures) + 1
              else
                state == L.Resolving && calls == old(calls)[id := L.AtResolve] && lock == Some(id)
                && !error && loadFailures == old(loadFailures)
    {
      hide L.Begin, L.Fail;
      if state == L.Ready {
        calls := calls[id := L.Done(L.Skipped)];
      } else if state != L.New && state != L.Failed {
        calls := calls[id := L.Done(L.Refused)];
      } else {
        Begin(id);
        if storageRaises {
          GiveUp(id);
        }
      }
    }

    /** From the lock to the await of resolve. */
    method EnterInitialize(id: L.CallId, storageRaises: bool)
      requires Valid() && id in calls && calls[id] == L.Waiting && lock.None?
      modifies this`state, this`error, this`readyGauge, this`loadFailures, this`lock, this`calls, this`log, this`lifeSteps
      ensures Valid() && lifeSteps == old(lifeSteps) + [(id, L.Enter(storageRaises))]
      ensures Lifecycle() == L.Apply(old(Lifecycle()), modelFormat, id, L.Enter(storageRaises))
      ensures if old(state) == L.Ready then
                state == L.Ready && calls == old(calls)[id := L.Done(L.Skipped)] && lock.None?
              else if old(state) != L.New && old(state) != L.Failed then
                state == old(state) && calls == old(calls)[id := L.Done(L.Refused)] && lock.None?
              else if storageRaises then
                state == L.Failed && id in calls && calls[id] == L.AtUnload && lock == Some(id)
                && error && !readyGauge && loadFailures == old(loadFailures) + 1
              else
                state == L.Resolving && calls == old(calls)[id := L.AtResolve] && lock == Some(id)
                && !error && loadFailures == old(loadFailures)
    {
      hide L.Apply, L.CallStep, L.EnterStep, Life, Requests, Gate, Served;
      L.EnterApplies(Lifecycle(), modelFormat, id, storageRaises);
      Enter(id, storageRaises);
      RecordLife(old(Lifecycle()), id, L.Enter(storageRaises));
    }

    method ResolveReturned(id: L.CallId)
      requires Valid() && id in calls && calls[id] == L.AtResolve
      modifies this`state, this`calls, this`log, this`lifeSteps
      ensures Valid() && lifeSteps == old(lifeSteps) + [(id, L.Returns)]
      ensures Lifecycle() == L.Apply(old(Lifecycle()), modelFormat, id, L.Returns)
      ensures state == L.Validating && calls == old(calls)[id := L.AtValidate]
    {
      hide L.Apply, L.CallStep, Life, Requests, Gate, Served;
      L.ReturnApplies(Lifecycle(), modelFormat, id);
      state := L.Validating;
      calls := calls[id := L.AtValidate];
      log := log + [L.Resolved(id)];
      RecordLife(old(Lifecycle()), id, L.Returns);
    }

    /** The format check and the preflight. */
    method CheckFormat(id: L.CallId, format: string, preflightRaises: bool)
      modifies this`state, this`error, this`readyGauge, this`loadFailures, this`validation, this`calls, this`log
      ensures Lifecycle() == L.ValidatedStep(old(Lifecycle()), id, modelFormat, format, preflightRaises)
      ensures validation == Some(format)
      ensures if format == modelFormat && !preflightRaises then
                state == L.Loading && calls == old(calls)[id := L.AtLoad] && loadFailures == old(loadFailures)
                && error == old(error)
              else
                state == L.Failed && calls == old(calls)[id := L.AtUnload] && loadFailures == old(loadFailures) + 1
                && error && !readyGauge
    {
      hide L.Fail;
      validation := Some(format);
      log := log + [L.Validated(id, format)];
      if format != modelFormat || preflightRaises {
        GiveUp(id);
      } else {
        state := L.Loading;
        calls := calls[id := L.AtLoad];
        log := log + [L.LoadBegan(id)];
      }
    }

    /** From validation's return to the await of load. */
    method ValidationReturned(id: L.CallId, format: string, preflightRaises: bool)
      requires Valid() && id in calls && calls[id] == L.AtValidate
      modifies this`state, this`error, this`readyGauge, this`loadFailures, this`validation, this`calls, this`log, this`lifeSteps
      ensures Valid() && lifeSteps == old(lifeSteps) + [(id, L.ValidationReturns(format, preflightRaises))]
      ensures Lifecycle() == L.Apply(old(Lifecycle()), modelFormat, id, L.ValidationReturns(format, preflightRaises))
      ensures validation == Some(format)
      ensures if format == modelFormat && !preflightRaises then
                state == L.Loading && calls == old(calls)[id := L.AtLoad] && loadFailures == old(loadFailures)
                && error == old(error)
              else
                state == L.Failed && calls == old(calls)[id := L.AtUnload] && loadFailures == old(loadFailures) + 1
                && error && !readyGauge
    {
      hide L.Apply, L.CallStep, L.ValidatedStep, Life, Requests, Gate, Served;
      L.ValidatedApplies(Lifecycle(), modelFormat, id, format, preflightRaises);
      CheckFormat(id, format, preflightRaises);
      RecordLife(old(Lifecycle()), id, L.ValidationReturns(format, preflightRaises));
    }

    method LoadReturned(id: L.CallId)
      requires Valid() && id in calls && calls[id] == L.AtLoad
      modifies this`state, this`calls, this`log, this`modelLoads, this`lifeSteps
      ensures Valid() && lifeSteps == old(lifeSteps) + [(id, L.Returns)]
      ensures Lifecycle() == L.Apply(old(Lifecycle()), modelFormat, id, L.Returns)
      ensures state == L.Warming && calls == old(calls)[id := L.AtWarmup] && modelLoads == old(modelLoads) + 1
    {
      hide L.Apply, L.CallStep, Life, Requests, Gate, Served;
      L.ReturnApplies(Lifecycle(), modelFormat, id);
      modelLoads := modelLoads + 1;
      state := L.Warming;
      calls := calls[id := L.AtWarmup];
      log := log + [L.Loaded(id)];
      RecordLife(old(Lifecycle()), id, L.Returns);
    }

    method BecomeReady(id: L.CallId)
      modifies this`state, this`calls, this`log, this`loadedAt, this`readyGauge, this`lock
      ensures Lifecycle() == L.WarmedStep(old(Lifecycle()), id)
      ensures state == L.Ready && readyGauge && loadedAt && lock.None? && calls == old(calls)[id := L.Done(L.Succeeded)]
    {
      loadedAt := true;
      state := L.Ready;
      readyGauge := true;
      log := log + [L.Warmed(id)];
      calls := calls[id := L.Done(L.Succeeded)];
      lock := None;
    }

    /** From the warm-up's return to the end. */
    method WarmupReturned(id: L.CallId)
      requires Valid() && id in calls && calls[id] == L.AtWarmup
      modifies this`state, this`calls, this`log, this`loadedAt, this`readyGauge, this`lock, this`lifeSteps
      ensures Valid() && lifeSteps == old(lifeSteps) + [(id, L.Returns)]
      ensures Lifecycle() == L.Apply(old(Lifecycle()), modelFormat, id, L.Returns)
      ensures state == L.Ready && readyGauge && loadedAt && lock.None? && calls == old(calls)[id := L.Done(L.Succeeded)]
    {
      hide L.Apply, L.CallStep, L.WarmedStep, Life, Requests, Gate, Served;
      L.ReturnApplies(Lifecycle(), modelFormat, id);
      BecomeReady(id);
      RecordLife(old(Lifecycle()), id, L.Returns);
    }

    /** Any awaited stage of initialize raises or is cancelled. */
    method StageRaised(id: L.CallId)
      requires Valid() && id in calls && calls[id] in {L.AtResolve, L.AtValidate, L.AtLoad, L.AtWarmup}
      modifies this`state, this`error, this`readyGauge, this`loadFailures, this`calls, this`log, this`lifeSteps
      ensures Valid() && lifeSteps == old(lifeSteps) + [(id, L.Raises)]
      ensures Lifecycle() == L.Apply(old(Lifecycle()), modelFormat, id, L.Raises)
      ensures state == L.Failed && error && !readyGauge && loadFailures == old(loadFailures) + 1
      ensures calls == old(calls)[id := L.AtUnload] && lock == old(lock)
    {
      hide Life, Requests, Gate, Served;
      GiveUp(id);
      RecordLife(old(Lifecycle()), id, L.Raises);
    }

    /** unload is over, one way or another; the failure is raised on. */
    method UnloadEnded(id: L.CallId, raised: bool)
      requires Valid() && id in calls && calls[id] == L.AtUnload
      modifies this`calls, this`lock, this`lifeSteps
      ensures Valid() && lifeSteps == old(lifeSteps) + [(id, if raised then L.Raises else L.Returns)]
      ensures Lifecycle() == L.Apply(old(Lifecycle()), modelFormat, id, if raised then L.Raises else L.Returns)
      ensures lock.None? && calls == old(calls)[id := L.Done(L.Raised)] && state == old(state)
    {
      hide Life, Requests, Gate, Served;
      calls := calls[id := L.Done(L.Raised)];
      lock := None;
      RecordLife(old(Lifecycle()), id, if raised then L.Raises else L.Returns);
    }

    /** Load and warm-up, run without interruption. */
    method LoadAndWarm(id: L.CallId, loads: bool, warms: bool) returns (ok: bool)
      requires Valid() && id in calls && calls[id] == L.AtLoad
      modifies this`state, this`error, this`readyGauge, this`loadFailures, this`lock, this`calls, this`log, this`lifeSteps,
               this`modelLoads, this`loadedAt
      ensures Valid() && ok == (loads && warms) && modelLoads == old(modelLoads) + if loads then 1 else 0
      ensures if ok then
                state == L.Ready && readyGauge && error == old(error) && lock.None? && loadFailures == old(loadFailures)
                && calls == old(calls)[id := L.Done(L.Succeeded)]
              else
                state == L.Failed && !readyGauge && error && loadFailures == old(loadFailures) + 1
                && calls == old(calls)[id := L.AtUnload]
    {
      hide L.Apply, Valid, Lifecycle;
      if loads {
        LoadReturned(id);
        if warms {
          WarmupReturned(id);
          return true;
        }
      }
      StageRaised(id);
      return false;
    }

    /** Every stage of an attempt, run without interruption. */
    method RunStages(id: L.CallId, resolves: bool, format: Option<string>, preflightRaises: bool, loads: bool, warms: bool)
      returns (ok: bool)
      requires Valid() && id in calls && calls[id] == L.AtResolve && !error
      modifies this`state, this`error, this`readyGauge, this`loadFailures, this`lock, this`calls, this`log, this`lifeSteps,
               this`validation, this`modelLoads, this`loadedAt
      ensures var validated := resolves && format == Some(modelFormat) && !preflightRaises;
              && ok == (validated && loads && warms)
              && modelLoads == old(modelLoads) + if validated && loads then 1 else 0
      ensures Valid()
      ensures if ok then
                state == L.Ready && readyGauge && !error && lock.None? && loadFailures == old(loadFailures)
                && calls == old(calls)[id := L.Done(L.Succeeded)]
              else
                state == L.Failed && !readyGauge && error && loadFailures == old(loadFailures) + 1
                && calls == old(calls)[id := L.AtUnload]
    {
      hide L.Apply, Valid, Lifecycle;
      if !resolves {
        StageRaised(id);
        return false;
      }
      ResolveReturned(id);
      if format.None? {
        StageRaised(id);
        return false;
      }
      ValidationReturned(id, format.value, preflightRaises);
      if state == L.Failed {
        return false;
      }
      ok := LoadAndWarm(id, loads, warms);
    }

    /** initialize as one call runs it when nothing else moves: each argument says how one of its awaits, or the
        code between two of them, ends. */
    method Initialize(id: L.CallId, storageRaises: bool, resolves: bool, format: Option<string>, preflightRaises: bool,
                      loads: bool, warms: bool, unloadRaises: bool) returns (result: L.Result)
      requires Valid() && id !in calls && lock.None?
      modifies this`state, this`error, this`readyGauge, this`loadFailures, this`lock, this`calls, this`log, this`lifeSteps,
               this`validation, this`modelLoads, this`loadedAt
      ensures Valid() && lock.None? && id in calls && calls[id] == L.Done(result)
      ensures old(state) == L.Ready ==> result == L.Skipped && state == L.Ready
      ensures old(state) !in {L.New, L.Failed, L.Ready} ==> result == L.Refused && state == old(state)
      ensures old(state) in {L.New, L.Failed} ==>
                var validated := !storageRaises && resolves && format == Some(modelFormat) && !preflightRaises;
                && result == (if validated && loads && warms then L.Succeeded else L.Raised)
                && state == (if result == L.Succeeded then L.Ready else L.Failed)
                && readyGauge == (state == L.Ready) && error == (state == L.Failed)
                && modelLoads == old(modelLoads) + (if validated && loads then 1 else 0)
                && loadFailures == old(loadFailures) + (if result == L.Succeeded then 0 else 1)
    {
      hide L.Apply, Valid, Lifecycle;
      Call(id);
      EnterInitialize(id, storageRaises);
      if calls[id].Done? {
        return calls[id].result;
      }
      var ok := false;
      if !storageRaises {
        ok := RunStages(id, resolves, format, preflightRaises, loads, warms);
      }
      if ok {
        return L.Succeeded;
      }
      UnloadEnded(id, unloadRaises);
      return L.Raised;
    }

    /******* shutdown *******/

    method BeginShutdown() returns (awaiting: bool)
      requires Valid()
      modifies this`state, this`readyGauge, this`shutdowns, this`lifeSteps
      ensures Valid() && lifeSteps == old(lifeSteps) + [(0, L.ShutdownBegins)]
      ensures Lifecycle() == L.Apply(old(Lifecycle()), modelFormat, 0, L.ShutdownBegins)
      ensures awaiting <==> old(state) != L.Stopping && old(state) != L.Stopped
      ensures !readyGauge || !awaiting
      ensures state == if awaiting then L.Stopping else old(state)
    {
      hide Life, Requests, Gate, Served;
      if state == L.Stopping || state == L.Stopped {
        RecordLife(old(Lifecycle()), 0, L.ShutdownBegins);
        return false;
      }
      state := L.Stopping;
      readyGauge := false;
      shutdowns := shutdowns + 1;
      RecordLife(old(Lifecycle()), 0, L.ShutdownBegins);
      return true;
    }

    method EndShutdown(raised: bool)
      requires Valid() && shutdowns > 0
      modifies this`state, this`shutdowns, this`lifeSteps
      ensures Valid() && lifeSteps == old(lifeSteps) + [(0, L.ShutdownUnloads(raised))]
      ensures Lifecycle() == L.Apply(old(Lifecycle()), modelFormat, 0, L.ShutdownUnloads(raised))
      ensures state == if raised then old(state) else L.Stopped
    {
      hide Life, Requests, Gate, Served;
      shutdowns := shutdowns - 1;
      if !raised {
        state := L.Stopped;
      }
      RecordLife(old(Lifecycle()), 0, L.ShutdownUnloads(raised));
    }

    /******* generate and stream *******/

    /** The readiness check, up to the await of a permit. */
    method Submit(id: G.RequestId, kind: G.Kind)
      requires Valid() && id !in requests
      modifies this`requests, this`gateSteps
      ensures Valid() && gateSteps == old(gateSteps) + [(id, G.Submit(kind, state == L.Ready))]
      ensures Gate() == G.Apply(old(Gate()), id, G.Submit(kind, state == L.Ready))
      ensures requests == old(requests)[id := if state == L.Ready then G.Queued(kind) else G.Ended(G.NotReady)]
    {
      hide Life, Requests, Lifecycle, Served;
      if state != L.Ready {
        requests := requests[id := G.Ended(G.NotReady)];
      } else {
        requests := requests[id := G.Queued(kind)];
      }
      RecordGate(old(Gate()), id, G.Submit(kind, state == L.Ready));
    }

    method PermitGranted(id: G.RequestId)
      requires Valid() && id in requests && requests[id].Queued? && capacity > 0
      modifies this`capacity, this`inProgress, this`requests, this`gateSteps
      ensures Valid() && gateSteps == old(gateSteps) + [(id, G.Acquired)]
      ensures Gate() == G.Apply(old(Gate()), id, G.Acquired)
      ensures id in G.Holders(Gate()) && capacity == old(capacity) - 1 && inProgress == old(inProgress) + 1
      ensures requests == old(requests)[id := G.Running(old(requests)[id].kind)]
    {
      hide Life, Requests, Lifecycle, Served;
      capacity := capacity - 1;
      inProgress := inProgress + 1;
      requests := requests[id := G.Running(requests[id].kind)];
      RecordGate(old(Gate()), id, G.Acquired);
    }

    method PermitRefused(id: G.RequestId, timedOut: bool)
      requires Valid() && id in requests && requests[id].Queued?
      modifies this`requests, this`gateSteps
      ensures Valid() && gateSteps == old(gateSteps) + [(id, if timedOut then G.QueueTimeout else G.Cancel)]
      ensures Gate() == G.Apply(old(Gate()), id, if timedOut then G.QueueTimeout else G.Cancel)
      ensures id !in G.Holders(Gate()) && capacity == old(capacity) && inProgress == old(inProgress)
      ensures requests == old(requests)[id := G.Ended(if timedOut then G.CapacityExhausted else G.CancelledInQueue)]
    {
      hide Life, Requests, Lifecycle, Served;
      requests := requests[id := G.Ended(if timedOut then G.CapacityExhausted else G.CancelledInQueue)];
      RecordGate(old(Gate()), id, if timedOut then G.QueueTimeout else G.Cancel);
    }

    /** generate's two finally clauses, however the engine call ended. */
    method GenerateEnded(id: G.RequestId, how: G.Action)
      requires Valid() && id in requests && requests[id] == G.Running(G.Generate)
      requires how in {G.EngineReturns, G.EngineRaises, G.Cancel}
      modifies this`capacity, this`inProgress, this`requests, this`releases, this`gateSteps
      ensures Valid() && gateSteps == old(gateSteps) + [(id, how)]
      ensures Gate() == G.Apply(old(Gate()), id, how)
      ensures id !in G.Holders(Gate()) && capacity == old(capacity) + 1 && inProgress == old(inProgress) - 1
      ensures requests == old(requests)[id := G.Ended(G.Completed)]
    {
      hide Life, Requests, Lifecycle, Served;
      inProgress := inProgress - 1;
      capacity := capacity + 1;
      requests := requests[id := G.Ended(G.Completed)];
      releases := releases + multiset{id};
      RecordGate(old(Gate()), id, how);
    }

    /** stream leaves its loop, up to the await of the inner aclose. */
    method StreamLeftLoop(id: G.RequestId, how: G.Action)
      requires Valid() && id in requests && requests[id] == G.Running(G.Stream)
      requires how in {G.EngineReturns, G.EngineRaises, G.Cancel, G.Close}
      modifies this`requests, this`gateSteps
      ensures Valid() && gateSteps == old(gateSteps) + [(id, how)]
      ensures Gate() == G.Apply(old(Gate()), id, how)
      ensures id in G.Holders(Gate()) && requests == old(requests)[id := G.Closing]
    {
      hide Life, Requests, Lifecycle, Served;
      requests := requests[id := G.Closing];
      RecordGate(old(Gate()), id, how);
    }

    /** The inner aclose ended; if it raised, the gauge's decrement is skipped. */
    method StreamClosed(id: G.RequestId, raised: bool)
      requires Valid() && id in requests && requests[id] == G.Closing
      modifies this`capacity, this`inProgress, this`requests, this`releases, this`gateSteps
      ensures Valid() && gateSteps == old(gateSteps) + [(id, G.InnerClosed(raised))]
      ensures Gate() == G.Apply(old(Gate()), id, G.InnerClosed(raised))
      ensures id !in G.Holders(Gate()) && capacity == old(capacity) + 1
      ensures inProgress == old(inProgress) - if raised then 0 else 1
      ensures requests == old(requests)[id := G.Ended(if raised then G.CloseRaised else G.Completed)]
    {
      hide Life, Requests, Lifecycle, Served;
      if !raised {
        inProgress := inProgress - 1;
      }
      capacity := capacity + 1;
      requests := requests[id := G.Ended(if raised then G.CloseRaised else G.Completed)];
      releases := releases + multiset{id};
      RecordGate(old(Gate()), id, G.InnerClosed(raised));
    }

    /** generate as one call runs it when nothing else moves: whether a permit comes in time, else how the wait
        ends, and how the engine call ends.  Capacity and gauge are afterwards what they were. */
    method Generate(id: G.RequestId, inTime: bool, timedOut: bool, how: G.Action) returns (ending: G.Ending)
      requires Valid() && id !in requests && how in {G.EngineReturns, G.EngineRaises, G.Cancel}
      modifies this`capacity, this`inProgress, this`requests, this`releases, this`gateSteps
      ensures Valid() && capacity == old(capacity) && inProgress == old(inProgress)
      ensures requests == old(requests)[id := G.Ended(ending)]
      ensures ending == if state != L.Ready then G.NotReady
                        else if inTime && old(capacity) > 0 then G.Completed
                        else if timedOut then G.CapacityExhausted else G.CancelledInQueue
    {
      hide G.Apply, Valid, Gate;
      Submit(id, G.Generate);
      if state != L.Ready {
        return G.NotReady;
      }
      if inTime && capacity > 0 {
        PermitGranted(id);
        GenerateEnded(id, how);
        return G.Completed;
      }
      PermitRefused(id, timedOut);
      return if timedOut then G.CapacityExhausted else G.CancelledInQueue;
    }

    /** stream likewise, with how it leaves its loop and whether the inner aclose raises: capacity is afterwards
        what it was, and so is the gauge unless that raised. */
    method Stream(id: G.RequestId, inTime: bool, timedOut: bool, how: G.Action, closeRaises: bool) returns (ending: G.Ending)
      requires Valid() && id !in requests && how in {G.EngineReturns, G.EngineRaises, G.Cancel, G.Close}
      modifies this`capacity, this`inProgress, this`requests, this`releases, this`gateSteps
      ensures Valid() && capacity == old(capacity)
      ensures inProgress == old(inProgress) + if ending == G.CloseRaised then 1 else 0
      ensures requests == old(requests)[id := G.Ended(ending)]
      ensures ending == if state != L.Ready then G.NotReady
                        else if inTime && old(capacity) > 0 then if closeRaises then G.CloseRaised else G.Completed
                        else if timedOut then G.CapacityExhausted else G.CancelledInQueue
    {
      hide G.Apply, Valid, Gate;
      Submit(id, G.Stream);
      if state != L.Ready {
        return G.NotReady;
      }
      if inTime && capacity > 0 {
        PermitGranted(id);
        StreamLeftLoop(id, how);
        StreamClosed(id, closeRaises);
        return if closeRaises then G.CloseRaised else G.Completed;
      }
      PermitRefused(id, timedOut);
      return if timedOut then G.CapacityExhausted else G.CancelledInQueue;
    }
  }
}
