/**
 Runs of the model cache that nothing outside interferes with: every directory under a cache key
 is complete and final, and a populated directory is exactly the revision whose manifest was read.
 */
module ModelCacheClean {
  import opened EngineBase
  import opened ArtifactPath
  import opened Manifest
  import opened ModelCache
  import opened ModelCacheSafety

  ghost predicate Sane(c: Codec) {
    Faithful(c) && CollisionFree(c) && HexDigests(c)
  }

  /******* What a private directory holds while it is filled *******/

  function PathSet(files: seq<Entry>, n: nat): set<string>
    requires n <= |files|
  {
    set i | 0 <= i < n :: files[i].path
  }

  /** The manifest and the first n artifacts, each matching its entry, and nothing else. */
  ghost predicate Holds(c: Codec, dir: ModelDir, raw: Bytes, files: seq<Entry>, n: nat)
    requires n <= |files|
  {
    && dir.symlinks == {}
    && dir.files.Keys == {MANIFEST_NAME} + PathSet(files, n)
    && dir.files[MANIFEST_NAME] == raw
    && forall i | 0 <= i < n :: Matches(c, dir.files, files[i])
  }

  /** A finished directory: valid strictly against m, with no file m does not list. */
  ghost predicate Complete(c: Codec, dir: ModelDir, m: ModelManifest) {
    ValidAgainst(c, dir, m, true) && dir.files.Keys == {MANIFEST_NAME} + PathSet(m.files, |m.files|)
  }

  /** A finished directory carrying the marker for m. */
  ghost predicate Marked(c: Codec, dir: ModelDir, m: ModelManifest) {
    && ValidAgainst(c, dir, m, true)
    && dir.files.Keys == {MANIFEST_NAME, MARKER_NAME} + PathSet(m.files, |m.files|)
    && dir.files[MARKER_NAME] == Marker(c, ManifestDigest(c, m))
  }

  lemma OpenKeepsHolding(c: Codec, dir: ModelDir, raw: Bytes, files: seq<Entry>, n: nat, content: Bytes)
    requires n < |files| && Holds(c, dir, raw, files, n) && files[n].path !in dir.files
    requires |content| == files[n].size && c.sha256(content) == files[n].sha256
    ensures Holds(c, Put(dir, files[n].path, content), raw, files, n + 1)
  {
    var dir' := Put(dir, files[n].path, content);
    assert PathSet(files, n + 1) == PathSet(files, n) + {files[n].path};
    forall i | 0 <= i < n + 1 ensures Matches(c, dir'.files, files[i]) {
      assert i < n ==> Matches(c, dir.files, files[i]);
    }
  }

  lemma HeldManifest(c: Codec, dir: ModelDir, raw: Bytes, files: seq<Entry>, n: nat)
    requires n <= |files| && Holds(c, dir, raw, files, n)
    ensures LoadManifest(c, dir) == FromBytes(c, raw)
  {
  }

  lemma HeldIsListed(c: Codec, dir: ModelDir, raw: Bytes, files: seq<Entry>)
    requires Holds(c, dir, raw, files, |files|)
    ensures NothingUnlisted(dir.files, Paths(files))
  {
    hide Matches, BaseName, Split;
    ManifestNameIsRootManifest();
    forall path | path in dir.files && IsArtifact(path) ensures path in Paths(files) {
      var i :| 0 <= i < |files| && files[i].path == path;
      assert Paths(files)[i] == path;
    }
  }

  /** A fully stored directory that validates at all validates strictly and is complete. */
  lemma StoredIsComplete(c: Codec, dir: ModelDir, raw: Bytes, m: ModelManifest, strict: bool)
    requires FromBytes(c, raw) == Some(m) && Holds(c, dir, raw, m.files, |m.files|) && Valid(c, dir, strict)
    ensures Complete(c, dir, m)
  {
    hide FromBytes, LoadManifest, TypesAllowed, EntriesMatch, NothingUnlisted, Matches;
    HeldManifest(c, dir, raw, m.files, |m.files|);
    HeldIsListed(c, dir, raw, m.files);
  }

  lemma WellFormedOf(c: Codec, dir: ModelDir, m: ModelManifest)
    requires LoadManifest(c, dir) == Some(m)
    ensures WellFormed(m)
  {
  }

  lemma MarkerName()
    ensures BaseName(MARKER_NAME) == MARKER_NAME && MARKER_NAME != MANIFEST_NAME
  {
    SplitOne(MARKER_NAME, '/');
  }

  lemma MarkerIsNoManifest(c: Codec, dir: ModelDir, content: Bytes)
    ensures LoadManifest(c, Put(dir, MARKER_NAME, content)) == LoadManifest(c, dir)
  {
    hide FromBytes;
    MarkerName();
  }

  lemma MarkerIsNoArtifact(c: Codec, files: map<string, Bytes>, m: ModelManifest, content: Bytes)
    requires forall i | 0 <= i < |m.files| :: m.files[i].path != MARKER_NAME
    requires TypesAllowed(m.format, files) && EntriesMatch(c, files, m.files) && NothingUnlisted(files, Paths(m.files))
    ensures var files' := files[MARKER_NAME := content];
            TypesAllowed(m.format, files') && EntriesMatch(c, files', m.files) && NothingUnlisted(files', Paths(m.files))
  {
    hide TypeAllowed, BaseName, Split;
    MarkerName();
    var files' := files[MARKER_NAME := content];
    forall i | 0 <= i < |m.files| ensures Matches(c, files', m.files[i]) {
      assert Matches(c, files, m.files[i]);
    }
  }

  /** Marking a complete directory leaves it valid. */
  lemma MarkingKeepsValidity(c: Codec, dir: ModelDir, m: ModelManifest)
    requires Complete(c, dir, m)
    ensures Marked(c, Put(dir, MARKER_NAME, Marker(c, ManifestDigest(c, m))), m)
  {
    hide LoadManifest, TypesAllowed, EntriesMatch, NothingUnlisted, ManifestDigest, Marker;
    MarkerIsNoManifest(c, dir, Marker(c, ManifestDigest(c, m)));
    MarkerIsNotListed(c, dir, m);
    MarkerIsNoArtifact(c, dir.files, m, Marker(c, ManifestDigest(c, m)));
  }

  /** The marker is no artifact, so adding it to a valid directory leaves it valid. */
  lemma MarkingKeepsValid(c: Codec, dir: ModelDir, content: Bytes, strict: bool)
    requires Valid(c, dir, strict)
    ensures Valid(c, Put(dir, MARKER_NAME, content), strict)
  {
    hide FromBytes, TypeAllowed, BaseName;
    var m := LoadManifest(c, dir).value;
    var now := Put(dir, MARKER_NAME, content);
    MarkerName();
    MarkerIsNoManifest(c, dir, content);
    MarkerIsNotListed(c, dir, m);
    forall i | 0 <= i < |m.files| ensures Matches(c, now.files, m.files[i]) {
      assert Matches(c, dir.files, m.files[i]);
    }
    assert TypesAllowed(m.format, now.files);
  }

  lemma MarkerIsNotListed(c: Codec, dir: ModelDir, m: ModelManifest)
    requires LoadManifest(c, dir) == Some(m)
    ensures forall i | 0 <= i < |m.files| :: m.files[i].path != MARKER_NAME
  {
    WellFormedOf(c, dir, m);
    MarkerName();
    MarkerIsNotAccepted(MARKER_NAME);
    hide ValidateRelativeArtifactPath;
    assert forall i | 0 <= i < |m.files| :: m.files[i] in m.files;
  }

  /** A marked directory passes the cache-hit checks of any resolver of the same manifest. */
  lemma MarkedIsHit(c: Codec, dir: ModelDir, m: ModelManifest, strict: bool)
    requires Sane(c) && Marked(c, dir, m)
    ensures MarkerMatches(c, dir.files, ManifestDigest(c, m)) && Valid(c, dir, strict)
  {
    MarkerReadsBack(c, dir.files, ManifestDigest(c, m));
  }

  /******* The invariant *******/

  function TempOf(s: State, id: TaskId): Option<ModelDir> {
    if id in s.temps then Some(s.temps[id]) else None
  }

  function Without(dir: ModelDir, path: string): ModelDir {
    dir.(files := Drop(dir.files, path))
  }

  /** The object being received is stored as far as it has arrived, beside the finished ones. */
  ghost predicate HoldsPart(c: Codec, dir: ModelDir, t: Task, n: nat, got: Bytes) {
    && n < |t.m.files|
    && var path := t.m.files[n].path;
       path in dir.files && dir.files[path] == got && Holds(c, Without(dir, path), t.raw, t.m.files, n)
  }

  ghost predicate Knows(c: Codec, t: Task) {
    FromBytes(c, t.raw) == Some(t.m)
  }

  /** What holds of a task and its temporary directory, given the keys that have a target. */
  ghost predicate TaskSafe(c: Codec, keys: set<Digest>, t: Task, temp: Option<ModelDir>) {
    match t.phase
    case Ready => true
    case Failed => true
    case Crashed => true
    case Cleaning => true
    case Fetched => Knows(c, t)
    case Inspecting => Knows(c, t)
    case Revalidating => Knows(c, t) && Key(c, t) in keys
    case Purging => false
    case Creating => Knows(c, t) && Key(c, t) !in keys
    case Seeding => Knows(c, t) && Key(c, t) !in keys && temp == Some(ModelDir(map[], {}))
    case Filling(n) =>
      Knows(c, t) && Key(c, t) !in keys && temp.Some? && n <= |t.m.files| && Holds(c, temp.value, t.raw, t.m.files, n)
    case Receiving(n, got) => Knows(c, t) && Key(c, t) !in keys && temp.Some? && HoldsPart(c, temp.value, t, n, got)
    case Checking =>
      Knows(c, t) && Key(c, t) !in keys && temp.Some? && Holds(c, temp.value, t.raw, t.m.files, |t.m.files|)
    case Marking => Knows(c, t) && Key(c, t) !in keys && temp == Some(t.seen) && Complete(c, t.seen, t.m)
    case Publishing =>
      && Knows(c, t) && Key(c, t) !in keys && Complete(c, t.seen, t.m)
      && temp == Some(Put(t.seen, MARKER_NAME, Marker(c, ManifestDigest(c, t.m))))
    case Returned => Knows(c, t) && Key(c, t) in keys && (Complete(c, t.seen, t.m) || Marked(c, t.seen, t.m))
  }

  /** A target is the complete, marked directory of the manifest its key names. */
  ghost predicate TargetFor(c: Codec, key: Digest, node: Node, source: Source, m: ModelManifest) {
    key == CacheKey(c, source, ManifestDigest(c, m)) && node.Directory? && Marked(c, node.dir, m)
  }

  ghost predicate TargetSafe(c: Codec, key: Digest, node: Node) {
    exists source, m :: TargetFor(c, key, node, source, m)
  }

  ghost predicate TasksSafe(c: Codec, s: State) {
    forall id | id in s.tasks :: TaskSafe(c, s.targets.Keys, s.tasks[id], TempOf(s, id))
  }

  ghost predicate TargetsSafe(c: Codec, s: State) {
    && (forall key | key in s.targets :: TargetSafe(c, key, s.targets[key]))
    && s.populated.Keys == s.targets.Keys
    && (forall key | key in s.populated :: s.populated[key] == 1)
    && s.purges == 0
  }

  ghost predicate Safe(c: Codec, s: State) {
    Base(c, s) && TasksSafe(c, s) && TargetsSafe(c, s)
  }

  /** A step that leaves every target alone and touches one task and its temporary directory. */
  ghost predicate PrivateStep(s: State, s': State, id: TaskId) {
    && s'.targets == s.targets && s'.populated == s.populated && s'.purges == s.purges
    && id in s.tasks && id in s'.tasks && s'.tasks == s.tasks[id := s'.tasks[id]]
    && forall j | j != id :: TempOf(s', j) == TempOf(s, j)
  }

  lemma SafeFrame(c: Codec, s: State, s': State, id: TaskId)
    requires Safe(c, s) && PrivateStep(s, s', id) && Base(c, s')
    requires TaskSafe(c, s.targets.Keys, s'.tasks[id], TempOf(s', id))
    ensures Safe(c, s')
  {
    hide Base, TaskSafe, TargetSafe;
    forall j | j in s'.tasks ensures TaskSafe(c, s'.targets.Keys, s'.tasks[j], TempOf(s', j)) {
      assert j != id ==> TempOf(s', j) == TempOf(s, j);
    }
  }

  /******* Private steps *******/

  /** The directory a key names is a hit for every resolver of that key. */
  lemma TargetIsHit(c: Codec, s: State, t: Task)
    requires Sane(c) && TargetsSafe(c, s) && Key(c, t) in s.targets
    ensures var node := s.targets[Key(c, t)];
            && node.Directory? && Marked(c, node.dir, t.m) && Valid(c, node.dir, t.strict)
            && MarkerMatches(c, node.dir.files, ManifestDigest(c, t.m))
  {
    hide Marked, Valid, MarkerMatches, ManifestDigest, CacheKey;
    var key := Key(c, t);
    assert TargetSafe(c, key, s.targets[key]);
    var source, m :| TargetFor(c, key, s.targets[key], source, m);
    SameKeySameManifest(c, source, m, t.source, t.m);
    MarkedIsHit(c, s.targets[key].dir, t.m, t.strict);
  }

  /** s' is s after a private step of id to a state that is safe for it. */
  ghost predicate OwnStep(c: Codec, s: State, s': State, id: TaskId) {
    PrivateStep(s, s', id) && TaskSafe(c, s.targets.Keys, s'.tasks[id], TempOf(s', id))
  }

  lemma GotoOwn(c: Codec, s: State, id: TaskId, t: Task, p: Phase)
    requires id in s.tasks && TaskSafe(c, s.targets.Keys, t.(phase := p), TempOf(s, id))
    ensures OwnStep(c, s, Goto(s, id, t, p), id)
  {
    hide TaskSafe;
  }

  lemma LeaveOwn(c: Codec, s: State, id: TaskId, t: Task, p: Phase)
    requires id in s.tasks && TaskSafe(c, s.targets.Keys, t.(phase := p), TempOf(s, id))
    ensures OwnStep(c, s, Leave(c, s, id, t, p), id)
  {
    hide TaskSafe, Key;
  }

  lemma TempOwn(c: Codec, s: State, id: TaskId, t: Task, p: Phase, dir: ModelDir)
    requires id in s.tasks && TaskSafe(c, s.targets.Keys, t.(phase := p), Some(dir))
    ensures OwnStep(c, s, Goto(SetTemp(s, id, dir), id, t, p), id)
  {
    hide TaskSafe;
  }

  lemma StayOwn(c: Codec, s: State, id: TaskId)
    requires id in s.tasks && TaskSafe(c, s.targets.Keys, s.tasks[id], TempOf(s, id))
    ensures OwnStep(c, s, s, id)
  {
    hide TaskSafe;
    assert s.tasks == s.tasks[id := s.tasks[id]];
  }

  ghost predicate Stands(c: Codec, s: State, id: TaskId, t: Task) {
    id in s.tasks && s.tasks[id] == t && TaskSafe(c, s.targets.Keys, t, TempOf(s, id))
  }

  lemma OwnLookup(c: Codec, s: State, id: TaskId, t: Task)
    requires Sane(c) && TargetsSafe(c, s) && Stands(c, s, id, t)
    ensures t.phase.Inspecting? ==> OwnStep(c, s, ApplyInspect(c, s, id, t), id)
    ensures t.phase.Revalidating? ==> OwnStep(c, s, ApplyRevalidate(c, s, id, t), id)
  {
    hide Marked, Complete, Valid, MarkerMatches, ManifestDigest, CacheKey, FromBytes, Holds, OwnStep, Goto, Leave;
    var key := Key(c, t);
    if key in s.targets {
      TargetIsHit(c, s, t);
      if t.phase.Inspecting? {
        GotoOwn(c, s, id, t, Revalidating);
      } else if t.phase.Revalidating? {
        LeaveOwn(c, s, id, t.(seen := s.targets[key].dir), Returned);
      }
    } else if t.phase.Inspecting? {
      GotoOwn(c, s, id, t, Creating);
    }
  }

  lemma OwnEnding(c: Codec, s: State, id: TaskId, t: Task)
    requires Stands(c, s, id, t)
    ensures OwnStep(c, s, ApplyCrash(c, s, id, t), id) && OwnStep(c, s, ApplyRaise(c, s, id, t), id)
  {
    hide OwnStep, Goto, Leave, Knows, Holds, HoldsPart, Complete, Marked, Key;
    StayOwn(c, s, id);
    GotoOwn(c, s, id, t, Cleaning);
    GotoOwn(c, s, id, t, Crashed);
    GotoOwn(c, s, id, t, Failed);
    LeaveOwn(c, s, id, t, Crashed);
    LeaveOwn(c, s, id, t, Failed);
  }

  lemma OwnStart(c: Codec, s: State, id: TaskId, t: Task, raw: Bytes)
    requires Stands(c, s, id, t)
    ensures t.phase.Ready? ==> OwnStep(c, s, ApplyRead(c, s, id, t, raw), id)
    ensures t.phase.Fetched? ==> OwnStep(c, s, ApplyAcquire(c, s, id, t), id)
  {
    hide OwnStep, Goto, FromBytes, Holds, HoldsPart, Complete, Marked, Key;
    if t.phase.Ready? {
      match FromBytes(c, raw)
      case None => GotoOwn(c, s, id, t, Failed);
      case Some(m) => GotoOwn(c, s, id, t.(raw := raw, m := m), Fetched);
    } else if t.phase.Fetched? {
      if Key(c, t) in s.locks {
        StayOwn(c, s, id);
      } else {
        LockOwn(c, s, id, t);
      }
    }
  }

  lemma LockOwn(c: Codec, s: State, id: TaskId, t: Task)
    requires Stands(c, s, id, t) && t.phase.Fetched?
    ensures OwnStep(c, s, Goto(s.(locks := s.locks[Key(c, t) := id]), id, t, Inspecting), id)
  {
    hide Key;
  }

  lemma OwnOutside(c: Codec, s: State, id: TaskId, t: Task, a: Action)
    requires Sane(c) && TargetsSafe(c, s) && Stands(c, s, id, t)
    ensures OwnStep(c, s, ApplyOutside(c, s, id, t, a), id)
  {
    hide OwnStep, Goto, Leave, FromBytes, Holds, HoldsPart, Complete, Marked, CacheKey, ManifestDigest,
         ApplyInspect, ApplyRevalidate, ApplyRead, ApplyAcquire, ApplyCrash, ApplyRaise, TargetsSafe;
    if a.Crash? || a.Raise? {
      OwnEnding(c, s, id, t);
    } else if t.phase.Inspecting? || t.phase.Revalidating? {
      OwnLookup(c, s, id, t);
      StayOwn(c, s, id);
    } else if t.phase.Ready? || t.phase.Fetched? {
      OwnStart(c, s, id, t, if a.ReadManifest? then a.raw else []);
      StayOwn(c, s, id);
    } else if t.phase.Creating? && a.MakeTemp? {
      TempOwn(c, s, id, t, Seeding, ModelDir(map[], {}));
    } else {
      StayOwn(c, s, id);
    }
  }

  lemma ReceiveKeepsHolding(c: Codec, dir: ModelDir, t: Task, n: nat, got: Bytes, chunk: Bytes)
    requires HoldsPart(c, dir, t, n, got)
    ensures HoldsPart(c, Put(dir, t.m.files[n].path, got + chunk), t, n, got + chunk)
  {
    hide Holds;
    var path := t.m.files[n].path;
    assert Without(Put(dir, path, got + chunk), path).files == Without(dir, path).files;
  }

  lemma OpenStartsPart(c: Codec, dir: ModelDir, t: Task, n: nat)
    requires n < |t.m.files| && Holds(c, dir, t.raw, t.m.files, n) && t.m.files[n].path !in dir.files
    ensures HoldsPart(c, Put(dir, t.m.files[n].path, []), t, n, [])
  {
    hide Holds;
    var path := t.m.files[n].path;
    assert Without(Put(dir, path, []), path).files == dir.files;
  }

  lemma PartBecomesWhole(c: Codec, dir: ModelDir, t: Task, n: nat, got: Bytes)
    requires HoldsPart(c, dir, t, n, got) && |got| == t.m.files[n].size && c.sha256(got) == t.m.files[n].sha256
    ensures Holds(c, dir, t.raw, t.m.files, n + 1)
  {
    var path := t.m.files[n].path;
    OpenKeepsHolding(c, Without(dir, path), t.raw, t.m.files, n, got);
    assert Put(Without(dir, path), path, got).files == dir.files;
    assert Put(Without(dir, path), path, got) == dir;
  }

  lemma SeedHolds(c: Codec, t: Task)
    ensures Holds(c, Put(ModelDir(map[], {}), MANIFEST_NAME, t.raw), t.raw, t.m.files, 0)
  {
  }

  lemma OwnOpen(c: Codec, s: State, id: TaskId, t: Task)
    requires Stands(c, s, id, t) && id in s.temps && t.phase.Filling? && t.phase.next < |t.m.files|
    ensures OwnStep(c, s, ApplyOpen(s, id, t, t.phase.next), id)
  {
    hide OwnStep, Goto, SetTemp, Put, FromBytes, Holds, HoldsPart, CacheKey, ManifestDigest;
    var n, dir := t.phase.next, s.temps[id];
    var path := t.m.files[n].path;
    if path in dir.files {
      GotoOwn(c, s, id, t, Cleaning);
    } else {
      OpenStartsPart(c, dir, t, n);
      PartIgnoresPhase(c, Put(dir, path, []), t, t.(phase := Receiving(n, [])), n, []);
      TempOwn(c, s, id, t, Receiving(n, []), Put(dir, path, []));
    }
  }

  lemma PartIgnoresPhase(c: Codec, dir: ModelDir, t: Task, u: Task, n: nat, got: Bytes)
    requires HoldsPart(c, dir, t, n, got) && u.m == t.m && u.raw == t.raw
    ensures HoldsPart(c, dir, u, n, got)
  {
    hide Holds;
  }

  lemma OwnReceive(c: Codec, s: State, id: TaskId, t: Task, chunk: Bytes)
    requires Stands(c, s, id, t) && id in s.temps && t.phase.Receiving? && t.phase.next < |t.m.files|
    ensures OwnStep(c, s, ApplyReceive(s, id, t, t.phase.next, t.phase.got, chunk), id)
  {
    hide OwnStep, Goto, SetTemp, Put, FromBytes, Holds, CacheKey, ManifestDigest;
    var n, got, dir := t.phase.next, t.phase.got, s.temps[id];
    if |got| + |chunk| > t.m.files[n].size {
      GotoOwn(c, s, id, t, Cleaning);
    } else {
      var dir' := Put(dir, t.m.files[n].path, got + chunk);
      ReceiveKeepsHolding(c, dir, t, n, got, chunk);
      PartIgnoresPhase(c, dir', t, t.(phase := Receiving(n, got + chunk)), n, got + chunk);
      TempOwn(c, s, id, t, Receiving(n, got + chunk), dir');
    }
  }

  lemma OwnEndObject(c: Codec, s: State, id: TaskId, t: Task)
    requires Stands(c, s, id, t) && id in s.temps && t.phase.Receiving? && t.phase.next < |t.m.files|
    ensures OwnStep(c, s, ApplyEndObject(c, s, id, t, t.phase.next, t.phase.got), id)
  {
    hide OwnStep, Goto, FromBytes, Holds, HoldsPart, CacheKey, ManifestDigest;
    var n, got, e := t.phase.next, t.phase.got, t.m.files[t.phase.next];
    if |got| != e.size || c.sha256(got) != e.sha256 {
      GotoOwn(c, s, id, t, Cleaning);
    } else {
      PartBecomesWhole(c, s.temps[id], t, n, got);
      GotoOwn(c, s, id, t, Filling(n + 1));
    }
  }

  lemma OwnCheck(c: Codec, s: State, id: TaskId, t: Task)
    requires Stands(c, s, id, t) && id in s.temps && t.phase.Checking?
    ensures OwnStep(c, s, ApplyInside(c, s, id, t, Check), id)
  {
    hide OwnStep, Goto, FromBytes, Holds, Complete, Valid, CacheKey, ManifestDigest;
    var dir := s.temps[id];
    if Valid(c, dir, t.strict) {
      StoredIsComplete(c, dir, t.raw, t.m, t.strict);
      GotoOwn(c, s, id, t.(seen := dir), Marking);
    } else {
      GotoOwn(c, s, id, t, Cleaning);
    }
  }

  lemma OwnSeedMark(c: Codec, s: State, id: TaskId, t: Task)
    requires Stands(c, s, id, t) && id in s.temps
    ensures t.phase.Seeding? ==> OwnStep(c, s, ApplyInside(c, s, id, t, SeedManifest), id)
    ensures t.phase.Marking? ==> OwnStep(c, s, ApplyInside(c, s, id, t, Mark), id)
  {
    hide OwnStep, Goto, SetTemp, Put, FromBytes, Holds, Complete, CacheKey, ManifestDigest, Marker;
    if t.phase.Seeding? {
      SeedHolds(c, t);
      TempOwn(c, s, id, t, Filling(0), Put(s.temps[id], MANIFEST_NAME, t.raw));
    } else if t.phase.Marking? {
      TempOwn(c, s, id, t, Publishing, Put(s.temps[id], MARKER_NAME, Marker(c, ManifestDigest(c, t.m))));
    }
  }

  lemma OwnClean(c: Codec, s: State, id: TaskId, t: Task)
    requires Stands(c, s, id, t) && id in s.temps && t.phase.Cleaning?
    ensures OwnStep(c, s, ApplyInside(c, s, id, t, Clean), id)
  {
    hide Key;
  }

  /** Every step inside the temporary directory but the rename. */
  lemma OwnInside(c: Codec, s: State, id: TaskId, t: Task, a: Action)
    requires Stands(c, s, id, t) && id in s.temps && !(t.phase.Publishing? && a.Publish?)
    ensures OwnStep(c, s, ApplyInside(c, s, id, t, a), id)
  {
    hide OwnStep, Goto, Leave, SetTemp, Put, FromBytes, Holds, HoldsPart, Complete, Marked, Valid, CacheKey, ManifestDigest,
         ApplyOpen, ApplyReceive, ApplyEndObject, ApplyPublish;
    StayOwn(c, s, id);
    if t.phase.Seeding? || t.phase.Marking? {
      OwnSeedMark(c, s, id, t);
    } else if t.phase.Filling? && a.OpenObject? && t.phase.next < |t.m.files| {
      OwnOpen(c, s, id, t);
    } else if t.phase.Filling? && a.EndFiles? && t.phase.next == |t.m.files| {
      GotoOwn(c, s, id, t, Checking);
    } else if t.phase.Receiving? && a.Receive? && t.phase.next < |t.m.files| {
      OwnReceive(c, s, id, t, a.chunk);
    } else if t.phase.Receiving? && a.EndObject? && t.phase.next < |t.m.files| {
      OwnEndObject(c, s, id, t);
    } else if t.phase.Checking? && a.Check? {
      OwnCheck(c, s, id, t);
    } else if t.phase.Cleaning? && a.Clean? {
      OwnClean(c, s, id, t);
    }
  }

  /******* The rename *******/

  /** Whoever else stands past the lock stands at another key. */
  lemma OtherHoldersDiffer(c: Codec, s: State, id: TaskId, j: TaskId)
    requires Base(c, s) && id in s.tasks && j in s.tasks && j != id
    requires HoldsLock(s.tasks[id].phase) && HoldsLock(s.tasks[j].phase)
    ensures Key(c, s.tasks[id]) != Key(c, s.tasks[j])
  {
    assert TaskBase(c, s, id) && TaskBase(c, s, j);
  }

  lemma NewTargetKeepsTask(c: Codec, keys: set<Digest>, key: Digest, t: Task, temp: Option<ModelDir>)
    requires TaskSafe(c, keys, t, temp) && (HoldsLock(t.phase) ==> Key(c, t) != key)
    ensures TaskSafe(c, keys + {key}, t, temp)
  {
    hide Holds, HoldsPart, Complete, Marked, Knows, Key;
  }

  lemma SafePublish(c: Codec, s: State, id: TaskId, t: Task)
    requires Sane(c) && Safe(c, s) && id in s.tasks && s.tasks[id] == t && id in s.temps && t.phase.Publishing?
    ensures TasksSafe(c, ApplyPublish(c, s, id, t)) && TargetsSafe(c, ApplyPublish(c, s, id, t))
  {
    hide Holds, HoldsPart, Complete, Marked, Knows, CacheKey, ManifestDigest, Base, Marker, Put, TaskSafe;
    var key, s' := Key(c, t), ApplyPublish(c, s, id, t);
    PublishedIsMarked(c, s, id, t);
    assert s'.targets.Keys == s.targets.Keys + {key};
    forall j | j in s'.tasks ensures TaskSafe(c, s'.targets.Keys, s'.tasks[j], TempOf(s', j)) {
      if j != id {
        assert TaskSafe(c, s.targets.Keys, s.tasks[j], TempOf(s, j));
        if HoldsLock(s.tasks[j].phase) {
          OtherHoldersDiffer(c, s, id, j);
        }
        NewTargetKeepsTask(c, s.targets.Keys, key, s.tasks[j], TempOf(s, j));
      }
    }
    forall k | k in s'.targets ensures TargetSafe(c, k, s'.targets[k]) {
      assert k in s.targets ==> TargetSafe(c, k, s.targets[k]);
      assert TargetFor(c, key, s'.targets[key], t.source, t.m);
    }
  }

  lemma PublishedIsMarked(c: Codec, s: State, id: TaskId, t: Task)
    requires TasksSafe(c, s) && id in s.tasks && s.tasks[id] == t && id in s.temps && t.phase.Publishing?
    ensures Key(c, t) !in s.targets && Marked(c, s.temps[id], t.m)
    ensures forall temp :: TaskSafe(c, s.targets.Keys + {Key(c, t)}, t.(phase := Returned), temp)
  {
    hide Holds, HoldsPart, Complete, Marked, FromBytes, CacheKey, ManifestDigest, Marker, Put;
    assert TaskSafe(c, s.targets.Keys, t, TempOf(s, id));
    MarkingKeepsValidity(c, t.seen, t.m);
  }

  /******* Every run *******/

  lemma SafeStep(c: Codec, s: State, id: TaskId, a: Action)
    requires Sane(c) && Safe(c, s) && !Corrupts(a)
    ensures Safe(c, Apply(c, s, id, a))
  {
    hide TaskSafe, ApplyOutside, ApplyInside, ApplyPublish, Base, TargetsSafe, Sane;
    BaseStep(c, s, id, a);
    if id in s.tasks {
      var t := s.tasks[id];
      assert TaskSafe(c, s.targets.Keys, t, TempOf(s, id));
      if !InsideAction(a) {
        OwnOutside(c, s, id, t, a);
        SafeFrame(c, s, Apply(c, s, id, a), id);
      } else if id in s.temps {
        if t.phase.Publishing? && a.Publish? {
          SafePublish(c, s, id, t);
          PublishIsApplied(c, s, id);
        } else {
          OwnInside(c, s, id, t, a);
          SafeFrame(c, s, Apply(c, s, id, a), id);
        }
      }
    }
  }

  lemma PublishIsApplied(c: Codec, s: State, id: TaskId)
    requires id in s.tasks && id in s.temps && s.tasks[id].phase.Publishing?
    ensures Apply(c, s, id, Publish) == ApplyPublish(c, s, id, s.tasks[id])
  {
  }

  predicate Undisturbed(steps: seq<Step>) {
    forall i | 0 <= i < |steps| :: !Corrupts(steps[i].1)
  }

  /** A run from an empty cache that nothing outside interferes with. */
  ghost predicate CleanRun(c: Codec, s: State, steps: seq<Step>) {
    Sane(c) && Initial(s) && Undisturbed(steps)
  }

  lemma InitialIsSafe(c: Codec, s: State)
    requires Initial(s)
    ensures Safe(c, s)
  {
    hide Holds, HoldsPart, Complete, Marked, Knows, Valid, CacheKey, ManifestDigest;
    forall id | id in s.tasks ensures TaskBase(c, s, id) && TaskSafe(c, s.targets.Keys, s.tasks[id], TempOf(s, id)) {
    }
  }

  lemma {:induction false} SafeRun(c: Codec, s: State, steps: seq<Step>)
    requires Sane(c) && Safe(c, s) && Undisturbed(steps)
    ensures Safe(c, Exec(c, s, steps))
    decreases |steps|
  {
    hide Safe, Sane, Apply;
    if steps != [] {
      SafeStep(c, s, steps[0].0, steps[0].1);
      SafeRun(c, Apply(c, s, steps[0].0, steps[0].1), steps[1..]);
    }
  }

  /** With crashes and errors anywhere but nothing outside interfering: every cache key that has a
      directory has the complete, marked one of the manifest it names, filled exactly once, and
      nothing has ever been removed from a target. */
  lemma EveryTargetIsComplete(c: Codec, s: State, steps: seq<Step>, key: Digest)
    requires CleanRun(c, s, steps) && key in Exec(c, s, steps).targets
    ensures var s' := Exec(c, s, steps);
            && TargetSafe(c, key, s'.targets[key])
            && key in s'.populated && s'.populated[key] == 1 && s'.purges == 0
  {
    hide TaskSafe, TargetSafe, Base, Exec;
    InitialIsSafe(c, s);
    SafeRun(c, s, steps);
  }

  lemma TargetStays(c: Codec, s: State, id: TaskId, a: Action, key: Digest)
    requires Sane(c) && Safe(c, s) && !Corrupts(a) && key in s.targets
    ensures key in Apply(c, s, id, a).targets && Apply(c, s, id, a).targets[key] == s.targets[key]
  {
    hide TaskSafe, ApplyOutside, ApplyInside, ApplyPublish, Base, TargetsSafe, Sane;
    if id in s.tasks {
      var t := s.tasks[id];
      assert TaskSafe(c, s.targets.Keys, t, TempOf(s, id));
      if !InsideAction(a) {
        OwnOutside(c, s, id, t, a);
      } else if id in s.temps {
        if t.phase.Publishing? && a.Publish? {
          PublishedIsMarked(c, s, id, t);
          PublishIsApplied(c, s, id);
          PublishAdds(c, s, id, t);
        } else {
          OwnInside(c, s, id, t, a);
        }
      }
    }
  }

  lemma PublishAdds(c: Codec, s: State, id: TaskId, t: Task)
    requires id in s.tasks && s.tasks[id] == t && id in s.temps && Key(c, t) !in s.targets
    ensures ApplyPublish(c, s, id, t).targets == s.targets[Key(c, t) := Directory(s.temps[id])]
  {
  }

  /** A published directory is final: no later step changes or removes it. */
  lemma {:induction false} TargetsAreFinal(c: Codec, s: State, steps: seq<Step>, key: Digest)
    requires Sane(c) && Safe(c, s) && Undisturbed(steps) && key in s.targets
    ensures key in Exec(c, s, steps).targets && Exec(c, s, steps).targets[key] == s.targets[key]
    decreases |steps|
  {
    hide Safe, Sane, Apply;
    if steps != [] {
      var s' := Apply(c, s, steps[0].0, steps[0].1);
      SafeStep(c, s, steps[0].0, steps[0].1);
      TargetStays(c, s, steps[0].0, steps[0].1, key);
      TargetsAreFinal(c, s', steps[1..], key);
    }
  }

  /** A resolver that returns hands out, file for file, the revision whose manifest it read: if a
      directory was published as that manifest's, the cached one agrees with it on every artifact. */
  lemma ReturnedIsTheRevision(c: Codec, s: State, steps: seq<Step>, id: TaskId, revision: ModelDir, path: string)
    requires CleanRun(c, s, steps)
    requires var s' := Exec(c, s, steps);
             && id in s'.tasks && s'.tasks[id].phase.Returned?
             && ValidAgainst(c, revision, s'.tasks[id].m, true)
    requires IsArtifact(path)
    ensures var s' := Exec(c, s, steps);
            var key := Key(c, s'.tasks[id]);
            && key in s'.targets && s'.targets[key].Directory?
            && (path in s'.targets[key].dir.files <==> path in revision.files)
            && (path in revision.files ==> s'.targets[key].dir.files[path] == revision.files[path])
  {
    hide Base, Exec, TargetSafe, ValidAgainst, Holds, HoldsPart, Complete, CacheKey, ManifestDigest, Knows;
    InitialIsSafe(c, s);
    SafeRun(c, s, steps);
    var s' := Exec(c, s, steps);
    var t := s'.tasks[id];
    assert TaskSafe(c, s'.targets.Keys, t, TempOf(s', id));
    TargetIsHit(c, s', t);
    StrictValidationIsDeterminate(c, s'.targets[Key(c, t)].dir, revision, t.m, path);
  }

  /******* Runs with corruption *******/

  lemma InitialIsBase(c: Codec, s: State)
    requires Initial(s)
    ensures Base(c, s)
  {
    InitialIsSafe(c, s);
  }

  /** Whatever is corrupted, a resolver that has returned had validated the directory it looked at
      last, and one that has returned or failed has left no temporary directory and holds no lock. */
  lemma EveryResultWasValidated(c: Codec, s: State, steps: seq<Step>, id: TaskId)
    requires Initial(s) && id in Exec(c, s, steps).tasks
    ensures var s' := Exec(c, s, steps);
            var t := s'.tasks[id];
            && (t.phase.Returned? ==> Valid(c, t.seen, t.strict))
            && (t.phase.Returned? || t.phase.Failed? ==> id !in s'.temps)
            && (Over(t.phase) ==> forall key | key in s'.locks :: s'.locks[key] != id)
  {
    hide Exec, Valid, CacheKey, ManifestDigest;
    InitialIsBase(c, s);
    EveryRun(c, s, steps);
    var s' := Exec(c, s, steps);
    assert TaskBase(c, s', id);
    assert id in s'.temps ==> TempBase(s', id);
    forall key | key in s'.locks && s'.locks[key] == id ensures !Over(s'.tasks[id].phase) {
      assert LockBase(c, s', key);
    }
  }

  predicate Returns(s: State, id: TaskId) {
    id in s.tasks && s.tasks[id].phase.Returned?
  }

  lemma ReturningOutside(c: Codec, s: State, id: TaskId, t: Task, a: Action)
    requires id in s.tasks && s.tasks[id] == t && !t.phase.Returned?
    requires Returns(ApplyOutside(c, s, id, t, a), id)
    ensures t.phase.Revalidating? && a.Revalidate?
  {
    hide Valid, CacheKey, ManifestDigest, FromBytes, MarkerMatches, Key;
  }

  lemma ReturningInside(c: Codec, s: State, id: TaskId, t: Task, a: Action)
    requires id in s.tasks && s.tasks[id] == t && !t.phase.Returned? && id in s.temps
    requires Returns(ApplyInside(c, s, id, t, a), id)
    ensures t.phase.Publishing? && a.Publish?
  {
    hide Valid, CacheKey, ManifestDigest, Key, Put;
  }

  lemma RevalidateReturns(c: Codec, s: State, id: TaskId, t: Task)
    requires Returns(ApplyRevalidate(c, s, id, t), id)
    ensures Key(c, t) in s.targets && s.targets[Key(c, t)].Directory? && Valid(c, s.targets[Key(c, t)].dir, t.strict)
    ensures ApplyRevalidate(c, s, id, t).targets == s.targets
  {
    hide Valid, CacheKey, ManifestDigest;
  }

  lemma PublishReturns(c: Codec, s: State, id: TaskId, t: Task)
    requires id in s.temps && Returns(ApplyPublish(c, s, id, t), id)
    ensures ApplyPublish(c, s, id, t).targets == s.targets[Key(c, t) := Directory(s.temps[id])]
  {
    hide CacheKey, ManifestDigest;
  }

  /** And at the moment of returning, the directory validated is the one on disk under the key, or the
      one validated before it was marked and renamed there. */
  lemma ReturningStep(c: Codec, s: State, id: TaskId, t: Task, a: Action)
    requires Base(c, s) && id in s.tasks && s.tasks[id] == t && !Returns(s, id) && Returns(Apply(c, s, id, a), id)
    ensures var key, targets := Key(c, t), Apply(c, s, id, a).targets;
            || (targets == s.targets && key in targets && targets[key].Directory? && Valid(c, targets[key].dir, t.strict))
            || (id in s.temps && targets == s.targets[key := Directory(s.temps[id])] && Valid(c, t.seen, t.strict))
  {
    hide Valid, Key, ApplyRevalidate, ApplyPublish, ApplyInspect, ApplyRead, ApplyRaise, ApplyCrash, ApplyAcquire,
         ApplyOpen, ApplyReceive, ApplyEndObject;
    if !Corrupts(a) && !InsideAction(a) {
      ReturningOutside(c, s, id, t, a);
      RevalidateReturns(c, s, id, t);
    } else if !Corrupts(a) {
      ReturningInside(c, s, id, t, a);
      PublishReturns(c, s, id, t);
      assert TaskBase(c, s, id);
    }
  }
}
