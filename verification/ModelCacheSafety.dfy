/**
 What every run of the model cache keeps: with no outside corruption a published directory is
 complete, stays as it is and is filled once; with corruption, whatever is returned has been
 validated and failures leave nothing behind.
 */
module ModelCacheSafety {
  import opened EngineBase
  import opened ArtifactPath
  import opened Manifest
  import opened ModelCache

  /******* Every run, corrupted or not *******/

  ghost predicate TaskBase(c: Codec, s: State, id: TaskId)
    requires id in s.tasks
  {
    var t := s.tasks[id];
    && (HoldsLock(t.phase) ==> Key(c, t) in s.locks && s.locks[Key(c, t)] == id)
    && (OwnsTemp(t.phase) ==> id in s.temps)
    && (t.phase.Marking? || t.phase.Publishing? || t.phase.Returned? ==> Valid(c, t.seen, t.strict))
  }

  ghost predicate LockBase(c: Codec, s: State, key: Digest)
    requires key in s.locks
  {
    var id := s.locks[key];
    id in s.tasks && HoldsLock(s.tasks[id].phase) && Key(c, s.tasks[id]) == key
  }

  ghost predicate TempBase(s: State, id: TaskId) {
    id in s.tasks && (OwnsTemp(s.tasks[id].phase) || s.tasks[id].phase.Crashed?)
  }

  ghost predicate Base(c: Codec, s: State) {
    && (forall id | id in s.tasks :: TaskBase(c, s, id))
    && (forall key | key in s.locks :: LockBase(c, s, key))
    && (forall id | id in s.temps :: TempBase(s, id))
  }

  /** s' differs from s in what belongs to task id only. */
  ghost predicate Moves(s: State, s': State, id: TaskId) {
    && id in s.tasks && id in s'.tasks && s'.tasks == s.tasks[id := s'.tasks[id]]
    && (forall j | j != id :: j in s.temps <==> j in s'.temps)
    && (forall key | key in s'.locks && s'.locks[key] != id :: key in s.locks && s.locks[key] == s'.locks[key])
    && (forall key | key in s.locks && s.locks[key] != id :: key in s'.locks && s'.locks[key] == s.locks[key])
  }

  /** What must hold of task id itself after its step. */
  ghost predicate OwnBase(c: Codec, s': State, id: TaskId)
    requires id in s'.tasks
  {
    && TaskBase(c, s', id)
    && (forall key | key in s'.locks && s'.locks[key] == id :: LockBase(c, s', key))
    && (id in s'.temps ==> TempBase(s', id))
  }

  lemma BaseFrame(c: Codec, s: State, s': State, id: TaskId)
    requires Base(c, s) && Moves(s, s', id) && OwnBase(c, s', id)
    ensures Base(c, s')
  {
    forall j | j in s'.tasks ensures TaskBase(c, s', j) {
      assert j != id ==> TaskBase(c, s, j);
    }
    forall key | key in s'.locks ensures LockBase(c, s', key) {
      assert key in s.locks ==> LockBase(c, s, key);
    }
    forall j | j in s'.temps ensures TempBase(s', j) {
      assert j in s.temps ==> TempBase(s, j);
    }
  }

  /** What task id knows of the locks before its step. */
  lemma OwnLocks(c: Codec, s: State, id: TaskId)
    requires Base(c, s) && id in s.tasks
    ensures OwnBase(c, s, id)
    ensures forall key | key in s.locks && s.locks[key] == id :: HoldsLock(s.tasks[id].phase) && Key(c, s.tasks[id]) == key
  {
    forall key | key in s.locks && s.locks[key] == id ensures LockBase(c, s, key) {
    }
    assert TaskBase(c, s, id);
    assert id in s.temps ==> TempBase(s, id);
  }

  ghost predicate SeenIsValid(c: Codec, t: Task) {
    t.phase.Marking? || t.phase.Publishing? || t.phase.Returned? ==> Valid(c, t.seen, t.strict)
  }

  ghost predicate OthersTemps(s: State, s': State, id: TaskId) {
    forall j | j != id :: j in s.temps <==> j in s'.temps
  }

  /** A step taken with the lock held before and after. */
  ghost predicate HoldingStep(c: Codec, s: State, s': State, id: TaskId, t: Task) {
    && id in s.tasks && s'.tasks == s.tasks[id := t] && s'.locks == s.locks
    && HoldsLock(s.tasks[id].phase) && HoldsLock(t.phase) && Key(c, t) == Key(c, s.tasks[id])
    && OthersTemps(s, s', id) && (id in s'.temps <==> OwnsTemp(t.phase)) && SeenIsValid(c, t)
  }

  /** A step that leaves the lock's scope. */
  ghost predicate LeavingStep(c: Codec, s: State, s': State, id: TaskId, t: Task) {
    && id in s.tasks && s'.tasks == s.tasks[id := t] && s'.locks == Drop(s.locks, Key(c, s.tasks[id]))
    && HoldsLock(s.tasks[id].phase) && Over(t.phase)
    && OthersTemps(s, s', id) && (id in s'.temps ==> t.phase.Crashed?) && SeenIsValid(c, t)
  }

  /** A step taken before the lock is held, possibly taking it. */
  ghost predicate UnlockedStep(c: Codec, s: State, s': State, id: TaskId, t: Task) {
    && id in s.tasks && s'.tasks == s.tasks[id := t] && s'.temps == s.temps
    && (s.tasks[id].phase.Ready? || s.tasks[id].phase.Fetched?)
    && ((s'.locks == s.locks && !HoldsLock(t.phase) && !t.phase.Returned?)
        || (Key(c, t) !in s.locks && s'.locks == s.locks[Key(c, t) := id] && t.phase.Inspecting?))
  }

  /** A step that changes directories only. */
  ghost predicate QuietStep(s: State, s': State) {
    s'.tasks == s.tasks && s'.locks == s.locks && s'.temps.Keys == s.temps.Keys
  }

  ghost predicate Moved(c: Codec, s: State, s': State, id: TaskId) {
    || QuietStep(s, s')
    || (id in s'.tasks && HoldingStep(c, s, s', id, s'.tasks[id]))
    || (id in s'.tasks && LeavingStep(c, s, s', id, s'.tasks[id]))
    || (id in s'.tasks && UnlockedStep(c, s, s', id, s'.tasks[id]))
  }

  lemma BaseHolding(c: Codec, s: State, s': State, id: TaskId, t: Task)
    requires Base(c, s) && HoldingStep(c, s, s', id, t)
    ensures Base(c, s')
  {
    hide Valid, CacheKey, ManifestDigest;
    OwnLocks(c, s, id);
    BaseFrame(c, s, s', id);
  }

  lemma BaseLeaving(c: Codec, s: State, s': State, id: TaskId, t: Task)
    requires Base(c, s) && LeavingStep(c, s, s', id, t)
    ensures Base(c, s')
  {
    hide Valid, CacheKey, ManifestDigest;
    OwnLocks(c, s, id);
    BaseFrame(c, s, s', id);
  }

  lemma BaseWithoutLock(c: Codec, s: State, s': State, id: TaskId, t: Task)
    requires Base(c, s) && UnlockedStep(c, s, s', id, t) && s'.locks == s.locks && !HoldsLock(t.phase) && !t.phase.Returned?
    ensures Base(c, s')
  {
    hide Valid, Key;
    OwnLocks(c, s, id);
    BaseFrame(c, s, s', id);
  }

  lemma BaseTakingLock(c: Codec, s: State, s': State, id: TaskId, t: Task)
    requires Base(c, s) && UnlockedStep(c, s, s', id, t)
    requires Key(c, t) !in s.locks && s'.locks == s.locks[Key(c, t) := id] && t.phase.Inspecting?
    ensures Base(c, s')
  {
    hide Valid, Key;
    OwnLocks(c, s, id);
    assert Moves(s, s', id);
    assert OwnBase(c, s', id) by {
      assert forall key | key in s'.locks && s'.locks[key] == id :: key == Key(c, t);
    }
    hide Base, Moves, OwnBase;
    BaseFrame(c, s, s', id);
  }

  lemma BaseUnlocked(c: Codec, s: State, s': State, id: TaskId, t: Task)
    requires Base(c, s) && UnlockedStep(c, s, s', id, t)
    ensures Base(c, s')
  {
    hide Base, Key, Valid;
    if t.phase.Inspecting? && s'.locks != s.locks {
      BaseTakingLock(c, s, s', id, t);
    } else {
      BaseWithoutLock(c, s, s', id, t);
    }
  }

  lemma BaseQuiet(c: Codec, s: State, s': State)
    requires Base(c, s) && QuietStep(s, s')
    ensures Base(c, s')
  {
    forall j | j in s'.tasks ensures TaskBase(c, s', j) {
      assert TaskBase(c, s, j);
    }
    forall key | key in s'.locks ensures LockBase(c, s', key) {
      assert LockBase(c, s, key);
    }
    forall j | j in s'.temps ensures TempBase(s', j) {
      assert TempBase(s, j);
    }
  }

  lemma BaseMoved(c: Codec, s: State, s': State, id: TaskId)
    requires Base(c, s) && Moved(c, s, s', id)
    ensures Base(c, s')
  {
    hide Valid, CacheKey, ManifestDigest;
    if QuietStep(s, s') {
      BaseQuiet(c, s, s');
    } else if HoldingStep(c, s, s', id, s'.tasks[id]) {
      BaseHolding(c, s, s', id, s'.tasks[id]);
    } else if LeavingStep(c, s, s', id, s'.tasks[id]) {
      BaseLeaving(c, s, s', id, s'.tasks[id]);
    } else {
      BaseUnlocked(c, s, s', id, s'.tasks[id]);
    }
  }

  /** What Base says about one task, as the step lemmas need it. */
  ghost predicate Own(c: Codec, s: State, id: TaskId, t: Task) {
    && id in s.tasks && s.tasks[id] == t && SeenIsValid(c, t)
    && (HoldsLock(t.phase) ==> (id in s.temps <==> OwnsTemp(t.phase)))
  }

  /** From one phase under the lock to another, after changes to the task's own directories at most. */
  lemma HoldsOn(c: Codec, s: State, s1: State, id: TaskId, t: Task, u: Task, p: Phase)
    requires Own(c, s, id, t) && HoldsLock(t.phase) && HoldsLock(p) && Key(c, u) == Key(c, t)
    requires s1.tasks == s.tasks && s1.locks == s.locks && OthersTemps(s, s1, id)
    requires (id in s1.temps <==> OwnsTemp(p)) && SeenIsValid(c, u.(phase := p))
    ensures Moved(c, s, Goto(s1, id, u, p), id)
  {
    hide Valid, Key;
    assert HoldingStep(c, s, Goto(s1, id, u, p), id, u.(phase := p)) by {
      KeyIgnoresPhase(c, u, p);
    }
  }

  lemma KeyIgnoresPhase(c: Codec, t: Task, p: Phase)
    ensures Key(c, t.(phase := p)) == Key(c, t)
  {
  }

  /** From a phase under the lock out of its scope. */
  lemma LeavesFor(c: Codec, s: State, s1: State, id: TaskId, t: Task, u: Task, p: Phase)
    requires Own(c, s, id, t) && HoldsLock(t.phase) && Over(p) && Key(c, u) == Key(c, t)
    requires s1.tasks == s.tasks && s1.locks == s.locks && OthersTemps(s, s1, id)
    requires (id in s1.temps ==> p.Crashed?) && SeenIsValid(c, u.(phase := p))
    ensures Moved(c, s, Leave(c, s1, id, u, p), id)
  {
    hide Valid, Key;
    assert LeavingStep(c, s, Leave(c, s1, id, u, p), id, u.(phase := p));
  }

  lemma MovedInspect(c: Codec, s: State, id: TaskId, t: Task)
    requires Own(c, s, id, t) && t.phase.Inspecting?
    ensures Moved(c, s, ApplyInspect(c, s, id, t), id)
  {
    hide Valid, Key, Moved, Goto, MarkerMatches, ManifestDigest;
    HoldsOn(c, s, s, id, t, t, Creating);
    HoldsOn(c, s, s, id, t, t, Purging);
    HoldsOn(c, s, s, id, t, t, Revalidating);
  }

  lemma MovedRevalidate(c: Codec, s: State, id: TaskId, t: Task)
    requires Own(c, s, id, t) && t.phase.Revalidating?
    ensures Moved(c, s, ApplyRevalidate(c, s, id, t), id)
  {
    hide Valid, Moved, Goto, Leave, CacheKey, ManifestDigest;
    HoldsOn(c, s, s, id, t, t, Purging);
    var key := Key(c, t);
    if key in s.targets && s.targets[key].Directory? && Valid(c, s.targets[key].dir, t.strict) {
      LeavesFor(c, s, s, id, t, t.(seen := s.targets[key].dir), Returned);
    }
  }

  lemma MovedEnding(c: Codec, s: State, id: TaskId, t: Task, a: Action)
    requires Own(c, s, id, t) && (a.Crash? || a.Raise?)
    ensures Moved(c, s, if a.Crash? then ApplyCrash(c, s, id, t) else ApplyRaise(c, s, id, t), id)
  {
    hide Valid, CacheKey, ManifestDigest;
    var s' := if a.Crash? then ApplyCrash(c, s, id, t) else ApplyRaise(c, s, id, t);
    if Over(t.phase) {
      assert QuietStep(s, s');
    } else if !HoldsLock(t.phase) {
      assert UnlockedStep(c, s, s', id, s'.tasks[id]);
    } else if s'.tasks[id].phase.Cleaning? {
      assert HoldingStep(c, s, s', id, s'.tasks[id]);
    } else {
      assert LeavingStep(c, s, s', id, s'.tasks[id]);
    }
  }

  lemma MovedStart(c: Codec, s: State, id: TaskId, t: Task, a: Action)
    requires Own(c, s, id, t) && ((a.ReadManifest? && t.phase.Ready?) || (a.Acquire? && t.phase.Fetched?))
    ensures Moved(c, s, if a.Acquire? then ApplyAcquire(c, s, id, t) else ApplyRead(c, s, id, t, a.raw), id)
  {
    hide Valid, CacheKey, ManifestDigest;
    var s' := if a.Acquire? then ApplyAcquire(c, s, id, t) else ApplyRead(c, s, id, t, a.raw);
    if s' != s {
      assert UnlockedStep(c, s, s', id, s'.tasks[id]);
    }
  }

  lemma MovedOutside(c: Codec, s: State, id: TaskId, t: Task, a: Action)
    requires Own(c, s, id, t)
    ensures Moved(c, s, ApplyOutside(c, s, id, t, a), id)
  {
    hide Valid, CacheKey, ManifestDigest;
    var s' := ApplyOutside(c, s, id, t, a);
    if a.Crash? || a.Raise? {
      MovedEnding(c, s, id, t, a);
    } else if (t.phase.Ready? && a.ReadManifest?) || (t.phase.Fetched? && a.Acquire?) {
      MovedStart(c, s, id, t, a);
    } else if t.phase.Inspecting? && a.Inspect? {
      MovedInspect(c, s, id, t);
    } else if t.phase.Revalidating? && a.Revalidate? {
      MovedRevalidate(c, s, id, t);
    } else if (t.phase.Purging? && a.PurgeRest?) || (t.phase.Creating? && a.MakeTemp?) {
      assert HoldingStep(c, s, s', id, s'.tasks[id]);
    } else {
      assert QuietStep(s, s');
    }
  }

  lemma MovedPublish(c: Codec, s: State, id: TaskId, t: Task)
    requires Own(c, s, id, t) && id in s.temps && t.phase.Publishing?
    ensures Moved(c, s, ApplyPublish(c, s, id, t), id)
  {
    hide Valid, CacheKey, ManifestDigest;
    var s' := ApplyPublish(c, s, id, t);
    if s'.tasks[id].phase.Returned? {
      assert LeavingStep(c, s, s', id, s'.tasks[id]);
    } else {
      assert HoldingStep(c, s, s', id, s'.tasks[id]);
    }
  }

  lemma MovedCheck(c: Codec, s: State, id: TaskId, t: Task)
    requires Own(c, s, id, t) && id in s.temps && t.phase.Checking?
    ensures Moved(c, s, ApplyInside(c, s, id, t, Check), id)
  {
    hide Valid, Moved, Goto, CacheKey, ManifestDigest;
    HoldsOn(c, s, s, id, t, t, Cleaning);
    if Valid(c, s.temps[id], t.strict) {
      HoldsOn(c, s, s, id, t, t.(seen := s.temps[id]), Marking);
    }
  }

  lemma MovedOpen(c: Codec, s: State, id: TaskId, t: Task, next: nat)
    requires Own(c, s, id, t) && id in s.temps && t.phase == Filling(next) && next < |t.m.files|
    ensures Moved(c, s, ApplyOpen(s, id, t, next), id)
  {
    hide Valid, Moved, Goto, Key, Put;
    HoldsOn(c, s, s, id, t, t, Cleaning);
    HoldsOn(c, s, SetTemp(s, id, Put(s.temps[id], t.m.files[next].path, [])), id, t, t, Receiving(next, []));
  }

  lemma MovedReceive(c: Codec, s: State, id: TaskId, t: Task, next: nat, got: Bytes, chunk: Bytes)
    requires Own(c, s, id, t) && id in s.temps && t.phase == Receiving(next, got) && next < |t.m.files|
    ensures Moved(c, s, ApplyReceive(s, id, t, next, got, chunk), id)
  {
    hide Valid, Moved, Goto, Key, Put;
    HoldsOn(c, s, s, id, t, t, Cleaning);
    var path, dir := t.m.files[next].path, s.temps[id];
    var stored := if path in dir.files then dir.files[path] else [];
    HoldsOn(c, s, SetTemp(s, id, Put(dir, path, stored + chunk)), id, t, t, Receiving(next, got + chunk));
  }

  lemma MovedEndObject(c: Codec, s: State, id: TaskId, t: Task, next: nat, got: Bytes)
    requires Own(c, s, id, t) && id in s.temps && t.phase == Receiving(next, got) && next < |t.m.files|
    ensures Moved(c, s, ApplyEndObject(c, s, id, t, next, got), id)
  {
    hide Valid, Moved, Goto, Key;
    HoldsOn(c, s, s, id, t, t, Cleaning);
    HoldsOn(c, s, s, id, t, t, Filling(next + 1));
  }

  lemma MovedSeed(c: Codec, s: State, id: TaskId, t: Task)
    requires Own(c, s, id, t) && id in s.temps && t.phase.Seeding?
    ensures Moved(c, s, ApplyInside(c, s, id, t, SeedManifest), id)
  {
    hide Valid, Moved, Goto, Key, Put;
    HoldsOn(c, s, SetTemp(s, id, Put(s.temps[id], MANIFEST_NAME, t.raw)), id, t, t, Filling(0));
  }

  lemma MovedMark(c: Codec, s: State, id: TaskId, t: Task)
    requires Own(c, s, id, t) && id in s.temps && t.phase.Marking?
    ensures Moved(c, s, ApplyInside(c, s, id, t, Mark), id)
  {
    hide Valid, Moved, Goto, Key, Put, Marker, ManifestDigest;
    HoldsOn(c, s, SetTemp(s, id, Put(s.temps[id], MARKER_NAME, Marker(c, ManifestDigest(c, t.m)))), id, t, t, Publishing);
  }

  lemma MovedClean(c: Codec, s: State, id: TaskId, t: Task)
    requires Own(c, s, id, t) && id in s.temps && t.phase.Cleaning?
    ensures Moved(c, s, ApplyInside(c, s, id, t, Clean), id)
  {
    hide Valid, Moved, Leave, Key;
    LeavesFor(c, s, s.(temps := Drop(s.temps, id)), id, t, t, Failed);
  }

  lemma MovedInside(c: Codec, s: State, id: TaskId, t: Task, a: Action)
    requires Own(c, s, id, t) && id in s.temps && InsideAction(a)
    ensures Moved(c, s, ApplyInside(c, s, id, t, a), id)
  {
    hide Moved, Own, Valid, ApplyPublish, ApplyOpen, ApplyReceive, ApplyEndObject, Goto, Leave, SetTemp, Put, ManifestDigest;
    StayedPut(c, s, id);
    match t.phase
    case Seeding => MovedSeed(c, s, id, t);
    case Filling(next) =>
      if next < |t.m.files| {
        MovedOpen(c, s, id, t, next);
      }
      MovedEndFiles(c, s, id, t);
    case Receiving(next, got) =>
      if next < |t.m.files| {
        MovedReceive(c, s, id, t, next, got, if a.Receive? then a.chunk else []);
        MovedEndObject(c, s, id, t, next, got);
      }
    case Checking => MovedCheck(c, s, id, t);
    case Marking => MovedMark(c, s, id, t);
    case Publishing => MovedPublish(c, s, id, t);
    case Cleaning => MovedClean(c, s, id, t);
    case _ =>
  }

  lemma MovedEndFiles(c: Codec, s: State, id: TaskId, t: Task)
    requires Own(c, s, id, t) && id in s.temps && t.phase.Filling?
    ensures Moved(c, s, Goto(s, id, t, Checking), id)
  {
    HoldsOn(c, s, s, id, t, t, Checking);
  }

  lemma StayedPut(c: Codec, s: State, id: TaskId)
    ensures Moved(c, s, s, id)
  {
  }

  lemma BaseStep(c: Codec, s: State, id: TaskId, a: Action)
    requires Base(c, s)
    ensures Base(c, Apply(c, s, id, a))
  {
    hide Valid, CacheKey, ManifestDigest;
    if Corrupts(a) {
      assert QuietStep(s, Apply(c, s, id, a));
    } else if id in s.tasks {
      OwnLocks(c, s, id);
      assert Own(c, s, id, s.tasks[id]);
      if !InsideAction(a) {
        MovedOutside(c, s, id, s.tasks[id], a);
      } else if id in s.temps {
        MovedInside(c, s, id, s.tasks[id], a);
      }
    }
    BaseMoved(c, s, Apply(c, s, id, a), id);
  }

  /** Every run, with crashes, errors and corruption anywhere: one holder per lock, every returned
      directory was valid when last looked at, and only live or crashed tasks own temporary directories. */
  lemma {:induction false} EveryRun(c: Codec, s: State, steps: seq<Step>)
    requires Base(c, s)
    ensures Base(c, Exec(c, s, steps))
    decreases |steps|
  {
    if steps != [] {
      BaseStep(c, s, steps[0].0, steps[0].1);
      EveryRun(c, Apply(c, s, steps[0].0, steps[0].1), steps[1..]);
    }
  }

  /******* What may happen where *******/

  /** A crash can come in every phase; it stops the task, gives back its lock and touches no directory. */
  lemma CrashesAnywhere(c: Codec, s: State, id: TaskId)
    requires id in s.tasks && !Over(s.tasks[id].phase)
    ensures var s', t := Apply(c, s, id, Crash), s.tasks[id];
            && s'.tasks == s.tasks[id := t.(phase := Crashed)]
            && s'.targets == s.targets && s'.temps == s.temps && s'.populated == s.populated && s'.purges == s.purges
            && s'.locks == if HoldsLock(t.phase) then Drop(s.locks, Key(c, t)) else s.locks
  {
    hide CacheKey, ManifestDigest;
  }

  lemma ErrorRaised(c: Codec, s: State, id: TaskId)
    requires id in s.tasks && !Over(s.tasks[id].phase)
    ensures var t := s.tasks[id];
            Apply(c, s, id, Raise) == (if OwnsTemp(t.phase) then Goto(s, id, t, Cleaning)
                                       else if HoldsLock(t.phase) then Leave(c, s, id, t, Failed)
                                       else Goto(s, id, t, Failed))
  {
    hide CacheKey, ManifestDigest;
  }

  lemma Cleaned(c: Codec, s: State, id: TaskId)
    requires id in s.tasks && s.tasks[id].phase.Cleaning? && id in s.temps
    ensures Apply(c, s, id, Clean) == Leave(c, s.(temps := Drop(s.temps, id)), id, s.tasks[id], Failed)
  {
    hide CacheKey, ManifestDigest;
  }

  /** So can an error; a task that has no temporary directory fails at once, and gives back its lock. */
  lemma ErrorsWithoutTemporary(c: Codec, s: State, id: TaskId)
    requires id in s.tasks && !Over(s.tasks[id].phase) && !OwnsTemp(s.tasks[id].phase)
    ensures var t, s' := s.tasks[id], Apply(c, s, id, Raise);
            && s'.tasks == s.tasks[id := t.(phase := Failed)] && s'.targets == s.targets && s'.temps == s.temps
            && s'.locks == (if HoldsLock(t.phase) then Drop(s.locks, Key(c, t)) else s.locks)
  {
    hide Apply, Key, Drop;
    ErrorRaised(c, s, id);
  }

  /** A task that has one removes it before it fails and gives back its lock. */
  lemma ErrorsWithTemporary(c: Codec, s: State, id: TaskId)
    requires id in s.tasks && OwnsTemp(s.tasks[id].phase) && id in s.temps
    ensures var t, s' := s.tasks[id], Apply(c, Apply(c, s, id, Raise), id, Clean);
            && s'.tasks == s.tasks[id := t.(phase := Failed)] && s'.targets == s.targets
            && s'.temps == Drop(s.temps, id) && s'.locks == Drop(s.locks, Key(c, t))
  {
    hide Apply, Drop, CacheKey, ManifestDigest;
    var t := s.tasks[id];
    ErrorRaised(c, s, id);
    Cleaned(c, Goto(s, id, t, Cleaning), id);
    assert s.tasks[id := t.(phase := Cleaning)][id := t.(phase := Failed)] == s.tasks[id := t.(phase := Failed)];
  }

  /** Corruption may put anything, or nothing, at a key, and anything in a live temporary directory, whatever the
      tasks are doing; it moves no task. */
  lemma CorruptionAnywhere(c: Codec, s: State, id: TaskId, key: Digest, node: Node, dir: ModelDir)
    ensures Apply(c, s, id, CorruptTarget(key, Some(node))) == s.(targets := s.targets[key := node])
    ensures Apply(c, s, id, CorruptTarget(key, None)) == s.(targets := Drop(s.targets, key))
    ensures id in s.temps ==> Apply(c, s, id, CorruptTemp(dir)) == s.(temps := s.temps[id := dir])
  {
  }

  /** Apart from its own task, temporary directory, lock and target, a task's step leaves everything as it was. */
  ghost predicate Local(c: Codec, s: State, s': State, id: TaskId, key: Digest) {
    && id in s.tasks && id in s'.tasks && s'.tasks == s.tasks[id := s'.tasks[id]]
    && Drop(s'.temps, id) == Drop(s.temps, id) && Drop(s'.locks, key) == Drop(s.locks, key)
    && Drop(s'.targets, key) == Drop(s.targets, key) && Drop(s'.populated, key) == Drop(s.populated, key)
  }

  lemma GotoIsLocal(c: Codec, s: State, s1: State, id: TaskId, u: Task, p: Phase, key: Digest)
    requires id in s.tasks && s1.tasks == s.tasks
    requires Drop(s1.temps, id) == Drop(s.temps, id) && Drop(s1.locks, key) == Drop(s.locks, key)
    requires Drop(s1.targets, key) == Drop(s.targets, key) && Drop(s1.populated, key) == Drop(s.populated, key)
    ensures Local(c, s, Goto(s1, id, u, p), id, key)
    ensures key == Key(c, u) ==> Local(c, s, Leave(c, s1, id, u, p), id, key)
  {
    hide CacheKey, ManifestDigest;
  }

  lemma OpenIsLocal(c: Codec, s: State, id: TaskId, t: Task, next: nat, got: Bytes, chunk: Bytes)
    requires id in s.tasks && s.tasks[id] == t && id in s.temps && next < |t.m.files|
    ensures Local(c, s, ApplyOpen(s, id, t, next), id, Key(c, t))
    ensures Local(c, s, ApplyReceive(s, id, t, next, got, chunk), id, Key(c, t))
    ensures Local(c, s, ApplyEndObject(c, s, id, t, next, got), id, Key(c, t))
  {
    hide Local, Goto, Key, Put;
    var key, path, dir := Key(c, t), t.m.files[next].path, s.temps[id];
    var stored := if path in dir.files then dir.files[path] else [];
    GotoIsLocal(c, s, s, id, t, Cleaning, key);
    GotoIsLocal(c, s, SetTemp(s, id, Put(dir, path, [])), id, t, Receiving(next, []), key);
    GotoIsLocal(c, s, SetTemp(s, id, Put(dir, path, stored + chunk)), id, t, Receiving(next, got + chunk), key);
    GotoIsLocal(c, s, s, id, t, Filling(next + 1), key);
  }

  lemma SeedIsLocal(c: Codec, s: State, id: TaskId, t: Task)
    requires id in s.tasks && s.tasks[id] == t && id in s.temps && (t.phase.Seeding? || t.phase.Marking?)
    ensures Local(c, s, ApplyInside(c, s, id, t, SeedManifest), id, Key(c, t))
    ensures Local(c, s, ApplyInside(c, s, id, t, Mark), id, Key(c, t))
  {
    var key, dir := Key(c, t), s.temps[id];
    NothingIsLocal(c, s, id, key);
    hide Local, Goto, Key, Put, Marker, ManifestDigest;
    GotoIsLocal(c, s, SetTemp(s, id, Put(dir, MANIFEST_NAME, t.raw)), id, t, Filling(0), key);
    GotoIsLocal(c, s, SetTemp(s, id, Put(dir, MARKER_NAME, Marker(c, ManifestDigest(c, t.m)))), id, t, Publishing, key);
  }

  lemma CheckIsLocal(c: Codec, s: State, id: TaskId, t: Task)
    requires id in s.tasks && s.tasks[id] == t && id in s.temps && t.phase.Checking?
    ensures Local(c, s, ApplyInside(c, s, id, t, Check), id, Key(c, t))
  {
    var key := Key(c, t);
    KeyIgnoresSeen(c, t, s.temps[id]);
    hide Local, Goto, Key, Valid;
    GotoIsLocal(c, s, s, id, t, Cleaning, key);
    GotoIsLocal(c, s, s, id, t.(seen := s.temps[id]), Marking, key);
  }

  lemma KeyIgnoresSeen(c: Codec, t: Task, seen: ModelDir)
    ensures Key(c, t.(seen := seen)) == Key(c, t)
  {
  }

  lemma CleanIsLocal(c: Codec, s: State, id: TaskId, t: Task)
    requires id in s.tasks && s.tasks[id] == t && id in s.temps && t.phase.Cleaning?
    ensures Local(c, s, ApplyInside(c, s, id, t, Clean), id, Key(c, t))
  {
    hide Local, Leave, Key;
    DropTwice(s.temps, id);
    GotoIsLocal(c, s, s.(temps := Drop(s.temps, id)), id, t, Failed, Key(c, t));
  }

  lemma DropTwice<K, V>(m: map<K, V>, k: K)
    ensures Drop(Drop(m, k), k) == Drop(m, k)
  {
  }

  lemma NothingIsLocal(c: Codec, s: State, id: TaskId, key: Digest)
    requires id in s.tasks
    ensures Local(c, s, s, id, key)
  {
  }

  lemma InsideIsLocal(c: Codec, s: State, id: TaskId, t: Task, a: Action)
    requires id in s.tasks && s.tasks[id] == t && id in s.temps && InsideAction(a)
    ensures Local(c, s, ApplyInside(c, s, id, t, a), id, Key(c, t))
  {
    hide Local, Goto, Leave, SetTemp, Key, Put, Valid, Marker, ManifestDigest, ApplyOpen, ApplyReceive, ApplyEndObject,
         ApplyPublish;
    var key := Key(c, t);
    NothingIsLocal(c, s, id, key);
    match t.phase
    case Seeding => SeedIsLocal(c, s, id, t);
    case Filling(next) =>
      EndFilesIsLocal(c, s, id, t);
      if next < |t.m.files| {
        OpenIsLocal(c, s, id, t, next, [], []);
      }
    case Receiving(next, got) =>
      if next < |t.m.files| {
        OpenIsLocal(c, s, id, t, next, got, if a.Receive? then a.chunk else []);
      }
    case Checking => CheckIsLocal(c, s, id, t);
    case Marking => SeedIsLocal(c, s, id, t);
    case Publishing => PublishIsLocal(c, s, id, t);
    case Cleaning => CleanIsLocal(c, s, id, t);
    case _ =>
  }

  lemma EndFilesIsLocal(c: Codec, s: State, id: TaskId, t: Task)
    requires id in s.tasks && s.tasks[id] == t
    ensures Local(c, s, Goto(s, id, t, Checking), id, Key(c, t))
  {
    hide Key;
    GotoIsLocal(c, s, s, id, t, Checking, Key(c, t));
  }

  lemma PublishIsLocal(c: Codec, s: State, id: TaskId, t: Task)
    requires id in s.tasks && s.tasks[id] == t && id in s.temps
    ensures Local(c, s, ApplyPublish(c, s, id, t), id, Key(c, t))
  {
    hide Local, Goto, Leave, CacheKey, ManifestDigest;
    var key := Key(c, t);
    var count := if key in s.populated then s.populated[key] else 0;
    GotoIsLocal(c, s, s, id, t, Cleaning, key);
    GotoIsLocal(c, s, s.(targets := s.targets[key := Directory(s.temps[id])], temps := Drop(s.temps, id),
                         populated := s.populated[key := count + 1]), id, t, Returned, key);
  }

  /** Moving on, or leaving the lock's scope, with nothing else done. */
  lemma PlainMovesAreLocal(c: Codec, s: State, id: TaskId, t: Task)
    requires id in s.tasks && s.tasks[id] == t
    ensures forall p: Phase :: Local(c, s, Goto(s, id, t, p), id, Key(c, t))
    ensures forall p: Phase :: Local(c, s, Leave(c, s, id, t, p), id, Key(c, t))
  {
    hide Local, Goto, Leave, Key;
    forall p: Phase ensures Local(c, s, Goto(s, id, t, p), id, Key(c, t)) && Local(c, s, Leave(c, s, id, t, p), id, Key(c, t)) {
      GotoIsLocal(c, s, s, id, t, p, Key(c, t));
    }
  }

  lemma EndingIsLocal(c: Codec, s: State, id: TaskId, t: Task)
    requires id in s.tasks && s.tasks[id] == t
    ensures Local(c, s, ApplyCrash(c, s, id, t), id, Key(c, t)) && Local(c, s, ApplyRaise(c, s, id, t), id, Key(c, t))
  {
    hide Local, Goto, Leave, Key;
    NothingIsLocal(c, s, id, Key(c, t));
    PlainMovesAreLocal(c, s, id, t);
  }

  lemma StartIsLocal(c: Codec, s: State, id: TaskId, t: Task, raw: Bytes)
    requires id in s.tasks && s.tasks[id] == t
    ensures Local(c, s, ApplyRead(c, s, id, t, raw), id, Key(c, t)) && Local(c, s, ApplyAcquire(c, s, id, t), id, Key(c, t))
  {
    hide Local, Goto, Key, FromBytes;
    var key := Key(c, t);
    NothingIsLocal(c, s, id, key);
    PlainMovesAreLocal(c, s, id, t);
    if FromBytes(c, raw).Some? {
      GotoIsLocal(c, s, s, id, t.(raw := raw, m := FromBytes(c, raw).value), Fetched, key);
    }
    GotoIsLocal(c, s, s.(locks := s.locks[key := id]), id, t, Inspecting, key);
  }

  lemma LookIsLocal(c: Codec, s: State, id: TaskId, t: Task)
    requires id in s.tasks && s.tasks[id] == t
    ensures Local(c, s, ApplyInspect(c, s, id, t), id, Key(c, t)) && Local(c, s, ApplyRevalidate(c, s, id, t), id, Key(c, t))
  {
    hide Local, Goto, Leave, Key, Valid, MarkerMatches, ManifestDigest;
    var key := Key(c, t);
    PlainMovesAreLocal(c, s, id, t);
    if key in s.targets && s.targets[key].Directory? {
      KeyIgnoresSeen(c, t, s.targets[key].dir);
      GotoIsLocal(c, s, s, id, t.(seen := s.targets[key].dir), Returned, key);
    }
  }

  lemma PurgeIsLocal(c: Codec, s: State, id: TaskId, t: Task, path: string)
    requires id in s.tasks && s.tasks[id] == t
    ensures Local(c, s, ApplyPurgeFile(c, s, t, path), id, Key(c, t)) && Local(c, s, ApplyPurgeRest(c, s, id, t), id, Key(c, t))
  {
    hide CacheKey, ManifestDigest;
    DropTwice(s.targets, Key(c, t));
  }

  lemma OutsideIsLocal(c: Codec, s: State, id: TaskId, t: Task, a: Action)
    requires id in s.tasks && s.tasks[id] == t && !Corrupts(a) && !InsideAction(a)
    ensures Local(c, s, ApplyOutside(c, s, id, t, a), id, Key(c, t))
  {
    hide Local, Goto, SetTemp, Key, ApplyCrash, ApplyRaise, ApplyRead, ApplyAcquire, ApplyInspect, ApplyRevalidate,
         ApplyPurgeFile, ApplyPurgeRest;
    NothingIsLocal(c, s, id, Key(c, t));
    EndingIsLocal(c, s, id, t);
    StartIsLocal(c, s, id, t, if a.ReadManifest? then a.raw else []);
    LookIsLocal(c, s, id, t);
    PurgeIsLocal(c, s, id, t, if a.PurgeFile? then a.path else "");
    MakeTempIsLocal(c, s, id, t);
  }

  lemma MakeTempIsLocal(c: Codec, s: State, id: TaskId, t: Task)
    requires id in s.tasks && s.tasks[id] == t
    ensures Local(c, s, Goto(SetTemp(s, id, ModelDir(map[], {})), id, t, Seeding), id, Key(c, t))
  {
    hide Key;
    GotoIsLocal(c, s, SetTemp(s, id, ModelDir(map[], {})), id, t, Seeding, Key(c, t));
  }

  /** No task's step reaches beyond its own temporary directory, lock and target. */
  lemma StepIsLocal(c: Codec, s: State, id: TaskId, a: Action)
    requires id in s.tasks && !Corrupts(a)
    ensures Local(c, s, Apply(c, s, id, a), id, Key(c, s.tasks[id]))
  {
    var t := s.tasks[id];
    assert Local(c, s, s, id, Key(c, t));
    hide Local, ApplyOutside, ApplyInside, Key;
    if !InsideAction(a) {
      OutsideIsLocal(c, s, id, t, a);
    } else if id in s.temps {
      InsideIsLocal(c, s, id, t, a);
    }
  }

  /******* What a resolver may do to a target that holds something *******/

  const EMPTY := Directory(ModelDir(map[], {}))

  /** Nothing, or a directory with at most some files taken away. */
  ghost predicate Remains(before: Node, targets: map<Digest, Node>, key: Digest) {
    key in targets ==>
      && before.Directory? && targets[key].Directory? && targets[key].dir.symlinks == before.dir.symlinks
      && forall path :: path in targets[key].dir.files ==>
           path in before.dir.files && targets[key].dir.files[path] == before.dir.files[path]
  }

  /** The target is as it was, or t is removing it. */
  ghost predicate Spared(c: Codec, s: State, s': State, t: Task, key: Digest)
    requires key in s.targets
  {
    || (key in s'.targets && s'.targets[key] == s.targets[key])
    || (t.phase == Purging && key == Key(c, t) && Remains(s.targets[key], s'.targets, key))
  }

  lemma PurgingSpares(c: Codec, s: State, id: TaskId, t: Task, path: string, key: Digest)
    requires key in s.targets && t.phase == Purging
    ensures Spared(c, s, ApplyPurgeFile(c, s, t, path), t, key) && Spared(c, s, ApplyPurgeRest(c, s, id, t), t, key)
  {
    hide ManifestDigest, CacheKey;
  }

  lemma OutsideSpares(c: Codec, s: State, id: TaskId, t: Task, a: Action, key: Digest)
    requires key in s.targets
    ensures Spared(c, s, ApplyOutside(c, s, id, t, a), t, key)
  {
    hide Remains, Key, Valid, MarkerMatches, ManifestDigest, FromBytes, ApplyPurgeFile, ApplyPurgeRest;
    if t.phase == Purging {
      PurgingSpares(c, s, id, t, if a.PurgeFile? then a.path else "", key);
    }
  }

  lemma PublishSpares(c: Codec, s: State, id: TaskId, t: Task, key: Digest)
    requires key in s.targets && s.targets[key] != EMPTY && id in s.temps
    ensures Spared(c, s, ApplyPublish(c, s, id, t), t, key)
    ensures key == Key(c, t) ==> ApplyPublish(c, s, id, t) == Goto(s, id, t, Cleaning)
  {
    hide Remains, ManifestDigest, CacheKey;
  }

  lemma InsideSpares(c: Codec, s: State, id: TaskId, t: Task, a: Action, key: Digest)
    requires key in s.targets && s.targets[key] != EMPTY && id in s.temps
    ensures Spared(c, s, ApplyInside(c, s, id, t, a), t, key)
  {
    hide Remains, Key, Valid, ManifestDigest, Marker, Put, ApplyPublish;
    PublishSpares(c, s, id, t, key);
  }

  /** In whatever state, corrupted or not: no resolver writes into a target that holds something or renames over
      it.  A resolver removing it takes files away, and one about to publish on it fails instead. */
  lemma NothingIsOverwritten(c: Codec, s: State, id: TaskId, a: Action, key: Digest)
    requires !Corrupts(a) && id in s.tasks && key in s.targets && s.targets[key] != EMPTY
    ensures Spared(c, s, Apply(c, s, id, a), s.tasks[id], key)
    ensures s.tasks[id].phase == Publishing && key == Key(c, s.tasks[id]) && a == Publish && id in s.temps ==>
              Apply(c, s, id, a) == Goto(s, id, s.tasks[id], Cleaning)
  {
    hide Spared, ApplyOutside, ApplyPublish, Key;
    var t := s.tasks[id];
    assert Spared(c, s, s, t, key) by { NothingSpares(c, s, t, key); }
    if id in s.temps {
      PublishSpares(c, s, id, t, key);
      if InsideAction(a) {
        hide ApplyInside;
        InsideSpares(c, s, id, t, a, key);
      }
    }
    if !InsideAction(a) {
      OutsideSpares(c, s, id, t, a, key);
    }
  }

  lemma NothingSpares(c: Codec, s: State, t: Task, key: Digest)
    requires key in s.targets
    ensures Spared(c, s, s, t, key)
  {
  }
}
