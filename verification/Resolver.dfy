/**
 resolve as it runs when nothing else moves: the lock, the look at the marker, the removal of an
 unusable target, the chunk loops, validation, the marker and the rename, updating the cache
 directory in the source's order.  The run is proved to be one of the cache machine's, so all that
 holds of the machine's runs holds of it.
 */
module Resolver {
  import opened EngineBase
  import opened ArtifactPath
  import opened Manifest
  import opened ModelCache
  import opened ModelCacheClean
  import opened Sequences

  /** What get_object gives: a body in chunks, which may break off with an exception. */
  datatype Body = Body(chunks: seq<Bytes>, breaks: bool)

  /** The objects below the prefix; a key that is not there raises. */
  type Bucket = map<string, Body>

  lemma PutAgain(dir: ModelDir, path: string, was: Bytes, now: Bytes)
    ensures path in Put(dir, path, was).files && Put(dir, path, was).files[path] == was
    ensures Put(Put(dir, path, was), path, now) == Put(dir, path, now)
  {
  }

  /** The object is there, reads to its end, and has the size and hash of its entry. */
  predicate Arrives(c: Codec, bucket: Bucket, e: Entry) {
    && e.path in bucket && !bucket[e.path].breaks
    && |Join(bucket[e.path].chunks)| == e.size && c.sha256(Join(bucket[e.path].chunks)) == e.sha256
  }

  ghost predicate Whole(c: Codec, files: seq<Entry>, bucket: Bucket) {
    && Unique(Paths(files)) && MANIFEST_NAME !in Paths(files)
    && forall i :: 0 <= i < |files| ==> Arrives(c, bucket, files[i])
  }

  /** The directory a whole revision is copied into. */
  function Copy(raw: Bytes, files: seq<Entry>, bucket: Bucket): ModelDir
    requires forall i :: 0 <= i < |files| ==> files[i].path in bucket
  {
    if files == [] then Put(ModelDir(map[], {}), MANIFEST_NAME, raw)
    else
      var e := files[|files| - 1];
      Put(Copy(raw, files[..|files| - 1], bucket), e.path, Join(bucket[e.path].chunks))
  }

  /** dir holds the manifest and the artifacts listed, and nothing else. */
  ghost predicate HoldsCopy(c: Codec, dir: ModelDir, raw: Bytes, files: seq<Entry>) {
    && dir.symlinks == {} && MANIFEST_NAME in dir.files && dir.files[MANIFEST_NAME] == raw
    && (forall i :: 0 <= i < |files| ==> Matches(c, dir.files, files[i]))
    && (forall path :: path in dir.files ==> path == MANIFEST_NAME || path in Paths(files))
  }

  lemma PutHolds(c: Codec, dir: ModelDir, raw: Bytes, files: seq<Entry>, e: Entry, content: Bytes)
    requires HoldsCopy(c, dir, raw, files) && e.path != MANIFEST_NAME && e.path !in Paths(files)
    requires |content| == e.size && c.sha256(content) == e.sha256
    ensures HoldsCopy(c, Put(dir, e.path, content), raw, files + [e])
  {
    var now, all := Put(dir, e.path, content), files + [e];
    forall i | 0 <= i < |files| ensures files[i].path in Paths(files) {
      assert Paths(files)[i] == files[i].path;
    }
    assert Paths(all) == Paths(files) + [e.path];
    forall i | 0 <= i < |all| ensures Matches(c, now.files, all[i]) {
      if i < |files| {
        assert Matches(c, dir.files, files[i]) && files[i].path != e.path;
      }
    }
  }

  lemma {:induction false} CopyHolds(c: Codec, raw: Bytes, files: seq<Entry>, bucket: Bucket)
    requires Whole(c, files, bucket)
    ensures HoldsCopy(c, Copy(raw, files, bucket), raw, files)
  {
    hide Join, Matches, Put;
    if files == [] {
      NothingCopied(c, raw);
    } else {
      var n := |files| - 1;
      var before, e := files[..n], files[n];
      WholeBefore(c, files, bucket, n);
      CopyHolds(c, raw, before, bucket);
      assert Paths(files)[n] == e.path && Paths(before) == Paths(files)[..n];
      assert Arrives(c, bucket, e);
      PutHolds(c, Copy(raw, before, bucket), raw, before, e, Join(bucket[e.path].chunks));
      assert files == before + [e];
    }
  }

  lemma NothingCopied(c: Codec, raw: Bytes)
    ensures HoldsCopy(c, Put(ModelDir(map[], {}), MANIFEST_NAME, raw), raw, [])
  {
  }

  lemma PartOfWhole(c: Codec, files: seq<Entry>, bucket: Bucket, n: nat)
    requires n <= |files| && !Whole(c, files[..n], bucket)
    ensures !Whole(c, files, bucket)
  {
    if Whole(c, files, bucket) {
      WholeBefore(c, files, bucket, n);
    }
  }

  lemma WholeBefore(c: Codec, files: seq<Entry>, bucket: Bucket, n: nat)
    requires Whole(c, files, bucket) && n <= |files|
    ensures Whole(c, files[..n], bucket)
  {
    assert Paths(files[..n]) == Paths(files)[..n];
  }

  /** While a whole revision is copied, the next path is never there already. */
  lemma NextIsNew(c: Codec, raw: Bytes, files: seq<Entry>, bucket: Bucket, n: nat)
    requires Whole(c, files, bucket) && n < |files|
    ensures Whole(c, files[..n], bucket) && files[n].path !in Copy(raw, files[..n], bucket).files
  {
    WholeBefore(c, files, bucket, n);
    CopyHolds(c, raw, files[..n], bucket);
    assert Paths(files)[n] == files[n].path && Paths(files[..n]) == Paths(files)[..n];
  }

  lemma CopySnoc(c: Codec, raw: Bytes, files: seq<Entry>, bucket: Bucket, n: nat)
    requires Whole(c, files, bucket) && n < |files|
    ensures Whole(c, files[..n], bucket) && Whole(c, files[..n + 1], bucket) && Arrives(c, bucket, files[n])
    ensures Copy(raw, files[..n + 1], bucket)
         == Put(Copy(raw, files[..n], bucket), files[n].path, Join(bucket[files[n].path].chunks))
  {
    WholeBefore(c, files, bucket, n);
    WholeBefore(c, files, bucket, n + 1);
    assert files[..n + 1][..n] == files[..n];
  }

  /** Every object arrives and the copy of them would validate. */
  ghost predicate Resolvable(c: Codec, raw: Bytes, m: ModelManifest, bucket: Bucket, strict: bool) {
    Whole(c, m.files, bucket) && Valid(c, Copy(raw, m.files, bucket), strict)
  }

  /** A hit: the marker of m, on a directory that validates. */
  ghost predicate Cached(c: Codec, targets: map<Digest, Node>, key: Digest, m: ModelManifest, strict: bool) {
    && key in targets && targets[key].Directory?
    && MarkerMatches(c, targets[key].dir.files, ManifestDigest(c, m)) && Valid(c, targets[key].dir, strict)
  }

  /** node is the copy of a whole revision, with its marker. */
  ghost predicate Filled(c: Codec, node: Node, raw: Bytes, m: ModelManifest, bucket: Bucket) {
    && Whole(c, m.files, bucket)
    && node == Directory(Put(Copy(raw, m.files, bucket), MARKER_NAME, Marker(c, ManifestDigest(c, m))))
  }

  /** The first n objects have been copied, and nothing else. */
  ghost predicate Copied(c: Codec, dir: ModelDir, raw: Bytes, files: seq<Entry>, n: nat, bucket: Bucket)
    requires n <= |files|
  {
    Whole(c, files[..n], bucket) && dir == Copy(raw, files[..n], bucket)
  }

  lemma CopiedNone(c: Codec, raw: Bytes, files: seq<Entry>, bucket: Bucket)
    ensures Copied(c, Put(ModelDir(map[], {}), MANIFEST_NAME, raw), raw, files, 0, bucket)
  {
    var none: seq<Entry> := [];
    assert files[..0] == none && Paths(none) == [];
  }

  /** The next object can be copied exactly when the revision stays whole with it. */
  lemma CopiedOne(c: Codec, dir: ModelDir, raw: Bytes, files: seq<Entry>, n: nat, bucket: Bucket)
    requires n < |files| && Copied(c, dir, raw, files, n, bucket)
    ensures Arrives(c, bucket, files[n]) && files[n].path !in dir.files <==> Whole(c, files[..n + 1], bucket)
    ensures Whole(c, files[..n + 1], bucket) ==>
              files[n].path in bucket
              && Copied(c, Put(dir, files[n].path, Join(bucket[files[n].path].chunks)), raw, files, n + 1, bucket)
  {
    hide Put, Join, Arrives, Copy;
    var upTo := files[..n + 1];
    assert upTo[..n] == files[..n] && upTo[n] == files[n];
    if Whole(c, upTo, bucket) {
      NextIsNew(c, raw, upTo, bucket, n);
      CopySnoc(c, raw, upTo, bucket, n);
      assert upTo[..n + 1] == upTo;
      ArrivedIsThere(c, bucket, files[n]);
    } else {
      OneMoreWhole(c, raw, files[..n], files[n], bucket);
      assert files[..n] + [files[n]] == upTo;
    }
  }

  lemma OneMoreWhole(c: Codec, raw: Bytes, files: seq<Entry>, e: Entry, bucket: Bucket)
    requires Whole(c, files, bucket)
    ensures Arrives(c, bucket, e) && e.path !in Copy(raw, files, bucket).files ==> Whole(c, files + [e], bucket)
  {
    hide Join, Copy, Put;
    CopyHolds(c, raw, files, bucket);
    var all, dir := files + [e], Copy(raw, files, bucket);
    if Arrives(c, bucket, e) && e.path !in dir.files {
      assert Paths(all) == Paths(files) + [e.path];
      assert forall i :: 0 <= i < |files| ==> Paths(files)[i] == files[i].path && Matches(c, dir.files, files[i]);
      assert forall i :: 0 <= i < |all| ==> all[i] == e || all[i] == files[i];
    }
  }

  lemma ArrivedIsThere(c: Codec, bucket: Bucket, e: Entry)
    requires Arrives(c, bucket, e)
    ensures e.path in bucket
  {
  }

  lemma CopiedAll(c: Codec, dir: ModelDir, raw: Bytes, files: seq<Entry>, bucket: Bucket)
    requires Copied(c, dir, raw, files, |files|, bucket)
    ensures Whole(c, files, bucket) && dir == Copy(raw, files, bucket)
  {
    assert files[..|files|] == files;
  }

  lemma ListedTypesAllowed(c: Codec, dir: ModelDir, m: ModelManifest, copy: ModelDir)
    requires EntriesMatch(c, dir.files, m.files) && TypesAllowed(m.format, dir.files)
    requires forall path :: path in copy.files ==> path == MANIFEST_NAME || path in Paths(m.files)
    ensures TypesAllowed(m.format, copy.files) && NothingUnlisted(copy.files, Paths(m.files))
  {
    hide TypeAllowed;
    ManifestNameIsRootManifest();
    assert !IsArtifact(MANIFEST_NAME);
    forall path | path in copy.files && IsArtifact(path) ensures TypeAllowed(m.format, path) {
      var i :| 0 <= i < |m.files| && Paths(m.files)[i] == path;
      assert Matches(c, dir.files, m.files[i]);
    }
  }

  /** What a strictly validated directory's objects make of an empty cache validates there too. */
  lemma CopyValidates(c: Codec, dir: ModelDir, m: ModelManifest, bucket: Bucket, strict: bool)
    requires ValidAgainst(c, dir, m, true) && Whole(c, m.files, bucket)
    ensures FromBytes(c, dir.files[MANIFEST_NAME]) == Some(m)
    ensures Resolvable(c, dir.files[MANIFEST_NAME], m, bucket, strict)
  {
    hide FromBytes, Copy, TypesAllowed, NothingUnlisted, Matches, Join;
    var copy := Copy(dir.files[MANIFEST_NAME], m.files, bucket);
    CopyHolds(c, dir.files[MANIFEST_NAME], m.files, bucket);
    ListedTypesAllowed(c, dir, m, copy);
    assert ValidAgainst(c, copy, m, strict);
  }

  lemma {:induction false} ExecSnoc(c: Codec, s: State, steps: seq<Step>, id: TaskId, a: Action)
    ensures Exec(c, s, steps + [(id, a)]) == Apply(c, Exec(c, s, steps), id, a)
    decreases |steps|
  {
    hide Apply;
    if steps == [] {
      assert (steps + [(id, a)])[1..] == [];
    } else {
      ExecSnoc(c, Apply(c, s, steps[0].0, steps[0].1), steps[1..], id, a);
      assert (steps + [(id, a)])[1..] == steps[1..] + [(id, a)];
    }
  }

  /** From s to s' task id has moved to phase p as t, and its temporary directory is what it is in temps. */
  predicate Moved(s: State, s': State, id: TaskId, t: Task, p: Phase, temps: map<TaskId, ModelDir>) {
    && s'.targets == s.targets && s'.locks == s.locks && s'.temps == temps
    && s'.tasks == s.tasks[id := t.(phase := p)]
  }

  lemma OpenMoves(c: Codec, s: State, id: TaskId, t: Task, e: Entry, next: nat)
    requires id in s.tasks && s.tasks[id] == t.(phase := Filling(next)) && id in s.temps
    requires next < |t.m.files| && t.m.files[next] == e
    ensures var s' := Apply(c, s, id, OpenObject);
            if e.path in s.temps[id].files then Moved(s, s', id, t, Cleaning, s.temps)
            else Moved(s, s', id, t, Receiving(next, []), s.temps[id := Put(s.temps[id], e.path, [])])
  {
    hide ManifestDigest, CacheKey, Valid;
  }

  lemma ReceiveMoves(c: Codec, s: State, id: TaskId, t: Task, e: Entry, next: nat, got: Bytes, chunk: Bytes)
    requires id in s.tasks && s.tasks[id] == t.(phase := Receiving(next, got)) && id in s.temps
    requires next < |t.m.files| && t.m.files[next] == e && e.path in s.temps[id].files
    ensures var s' := Apply(c, s, id, Receive(chunk));
            if |got| + |chunk| > e.size then Moved(s, s', id, t, Cleaning, s.temps)
            else Moved(s, s', id, t, Receiving(next, got + chunk),
                       s.temps[id := Put(s.temps[id], e.path, s.temps[id].files[e.path] + chunk)])
  {
    hide ManifestDigest, CacheKey, Valid;
  }

  lemma EndMoves(c: Codec, s: State, id: TaskId, t: Task, e: Entry, next: nat, got: Bytes)
    requires id in s.tasks && s.tasks[id] == t.(phase := Receiving(next, got)) && id in s.temps
    requires next < |t.m.files| && t.m.files[next] == e
    ensures Moved(s, Apply(c, s, id, EndObject), id, t,
                  if |got| == e.size && c.sha256(got) == e.sha256 then Filling(next + 1) else Cleaning, s.temps)
  {
    hide ManifestDigest, CacheKey, Valid;
  }

  lemma RaiseMoves(c: Codec, s: State, id: TaskId, t: Task, p: Phase)
    requires id in s.tasks && s.tasks[id] == t.(phase := p) && OwnsTemp(p)
    ensures Moved(s, Apply(c, s, id, Raise), id, t, Cleaning, s.temps)
  {
    hide ManifestDigest, CacheKey, Valid;
  }

  lemma DropSet<K, V>(m: map<K, V>, k: K, v: V)
    ensures Drop(m[k := v], k) == Drop(m, k)
  {
  }

  lemma DropAbsent<K, V>(m: map<K, V>, k: K)
    requires k !in m
    ensures Drop(m, k) == m
  {
  }

  /******* Steps outside the object loop *******/

  lemma ReadMoves(c: Codec, s: State, id: TaskId, raw: Bytes)
    requires id in s.tasks && s.tasks[id].phase == Ready
    ensures var s', t := Apply(c, s, id, ReadManifest(raw)), s.tasks[id];
            match FromBytes(c, raw)
            case None => Moved(s, s', id, t, Failed, s.temps)
            case Some(m) => Moved(s, s', id, t.(raw := raw, m := m), Fetched, s.temps)
  {
    hide FromBytes, ManifestDigest, CacheKey, Valid;
  }

  lemma ReadsExactly(c: Codec, raw: Bytes)
    ensures FromBytes(c, raw).Some? <==> |raw| <= 4 * 1024 * 1024 && c.parse(raw).Some? && WellFormed(c.parse(raw).value)
  {
    hide WellFormed;
  }

  lemma GiveUpMoves(c: Codec, s: State, id: TaskId, t: Task)
    requires id in s.tasks && s.tasks[id] == t.(phase := Fetched)
    ensures Moved(s, Apply(c, s, id, Raise), id, t, Failed, s.temps)
  {
    hide ManifestDigest, CacheKey, Valid;
  }

  lemma AcquireMoves(c: Codec, s: State, id: TaskId, t: Task)
    requires id in s.tasks && s.tasks[id] == t.(phase := Fetched) && Key(c, t) !in s.locks
    ensures var s' := Apply(c, s, id, Acquire);
            && s'.tasks == s.tasks[id := t.(phase := Inspecting)]
            && s'.locks == s.locks[Key(c, t) := id] && s'.targets == s.targets && s'.temps == s.temps
  {
    hide ManifestDigest, CacheKey, Valid;
  }

  lemma InspectMoves(c: Codec, s: State, id: TaskId, t: Task)
    requires id in s.tasks && s.tasks[id] == t.(phase := Inspecting)
    ensures var s', key := Apply(c, s, id, Inspect), Key(c, t);
            Moved(s, s', id, t,
                  if key !in s.targets then Creating
                  else if s.targets[key].Directory? && MarkerMatches(c, s.targets[key].dir.files, ManifestDigest(c, t.m))
                  then Revalidating
                  else Purging, s.temps)
  {
    hide ManifestDigest, CacheKey, Valid, MarkerMatches;
  }

  lemma RevalidateMoves(c: Codec, s: State, id: TaskId, t: Task)
    requires id in s.tasks && s.tasks[id] == t.(phase := Revalidating)
    requires Key(c, t) in s.targets && s.targets[Key(c, t)].Directory?
    ensures var s', dir := Apply(c, s, id, Revalidate), s.targets[Key(c, t)].dir;
            if Valid(c, dir, t.strict) then
              && s'.tasks == s.tasks[id := t.(phase := Returned, seen := dir)]
              && s'.locks == Drop(s.locks, Key(c, t)) && s'.targets == s.targets && s'.temps == s.temps
            else Moved(s, s', id, t, Purging, s.temps)
  {
    hide ManifestDigest, CacheKey, Valid;
  }

  lemma PurgeMoves(c: Codec, s: State, id: TaskId, t: Task)
    requires id in s.tasks && s.tasks[id] == t.(phase := Purging)
    ensures var s' := Apply(c, s, id, PurgeRest);
            && s'.tasks == s.tasks[id := t.(phase := Creating)]
            && s'.targets == Drop(s.targets, Key(c, t)) && s'.locks == s.locks && s'.temps == s.temps
  {
    hide ManifestDigest, CacheKey, Valid;
  }

  lemma PurgeFileMoves(c: Codec, s: State, id: TaskId, t: Task, path: string)
    requires id in s.tasks && s.tasks[id] == t.(phase := Purging)
    requires Key(c, t) in s.targets && s.targets[Key(c, t)].Directory?
    ensures var s', dir := Apply(c, s, id, PurgeFile(path)), s.targets[Key(c, t)].dir;
            && s'.targets == s.targets[Key(c, t) := Directory(dir.(files := Drop(dir.files, path)))]
            && s'.tasks == s.tasks && s'.locks == s.locks && s'.temps == s.temps
  {
    hide ManifestDigest, CacheKey, Valid;
  }

  lemma MakeTempMoves(c: Codec, s: State, id: TaskId, t: Task)
    requires id in s.tasks && s.tasks[id] == t.(phase := Creating)
    ensures Moved(s, Apply(c, s, id, MakeTemp), id, t, Seeding, s.temps[id := ModelDir(map[], {})])
  {
    hide ManifestDigest, CacheKey, Valid;
  }

  lemma SeedMoves(c: Codec, s: State, id: TaskId, t: Task)
    requires id in s.tasks && s.tasks[id] == t.(phase := Seeding) && id in s.temps
    ensures Moved(s, Apply(c, s, id, SeedManifest), id, t, Filling(0),
                  s.temps[id := Put(s.temps[id], MANIFEST_NAME, t.raw)])
  {
    hide ManifestDigest, CacheKey, Valid;
  }

  lemma CheckMoves(c: Codec, s: State, id: TaskId, t: Task)
    requires id in s.tasks && s.tasks[id] == t.(phase := Checking) && id in s.temps
    ensures var s', dir := Apply(c, s, id, Check), s.temps[id];
            if Valid(c, dir, t.strict) then Moved(s, s', id, t.(seen := dir), Marking, s.temps)
            else Moved(s, s', id, t, Cleaning, s.temps)
  {
    hide ManifestDigest, CacheKey, Valid;
  }

  lemma EndFilesMoves(c: Codec, s: State, id: TaskId, t: Task)
    requires id in s.tasks && s.tasks[id] == t.(phase := Filling(|t.m.files|)) && id in s.temps
    ensures Moved(s, Apply(c, s, id, EndFiles), id, t, Checking, s.temps)
  {
    hide ManifestDigest, CacheKey, Valid;
  }

  lemma MarkMoves(c: Codec, s: State, id: TaskId, t: Task)
    requires id in s.tasks && s.tasks[id] == t.(phase := Marking) && id in s.temps
    ensures Moved(s, Apply(c, s, id, Mark), id, t, Publishing,
                  s.temps[id := Put(s.temps[id], MARKER_NAME, Marker(c, ManifestDigest(c, t.m)))])
  {
    hide ManifestDigest, CacheKey, Valid, Marker;
  }

  lemma PublishMoves(c: Codec, s: State, id: TaskId, t: Task)
    requires id in s.tasks && s.tasks[id] == t.(phase := Publishing) && id in s.temps && Key(c, t) !in s.targets
    ensures var s' := Apply(c, s, id, Publish);
            && s'.tasks == s.tasks[id := t.(phase := Returned)]
            && s'.targets == s.targets[Key(c, t) := Directory(s.temps[id])]
            && s'.temps == Drop(s.temps, id) && s'.locks == Drop(s.locks, Key(c, t))
  {
    hide ManifestDigest, CacheKey, Valid;
  }

  lemma CleanMoves(c: Codec, s: State, id: TaskId, t: Task)
    requires id in s.tasks && s.tasks[id] == t.(phase := Cleaning) && id in s.temps
    ensures var s' := Apply(c, s, id, Clean);
            && s'.tasks == s.tasks[id := t.(phase := Failed)]
            && s'.temps == Drop(s.temps, id) && s'.locks == Drop(s.locks, Key(c, t)) && s'.targets == s.targets
  {
    hide ManifestDigest, CacheKey, Valid;
  }

  class CacheDirectory {
    const codec: Codec
    var targets: map<Digest, Node>
    var temps: map<TaskId, ModelDir>
    var locks: map<Digest, TaskId>
    ghost var start: State
    ghost var steps: seq<Step>
    ghost var machine: State     // the cache machine after steps

    /** The fields are the machine's, and the machine got there by resolvers' own steps. */
    ghost predicate Coherent()
      reads this
    {
      && machine == Exec(codec, start, steps) && Undisturbed(steps)
      && machine.targets == targets && machine.temps == temps && machine.locks == locks
    }

    ghost predicate At(id: TaskId, t: Task, p: Phase)
      reads this
    {
      id in machine.tasks && machine.tasks[id] == t.(phase := p)
    }

    constructor (codec: Codec, start: State)
      ensures this.codec == codec && this.start == start && machine == start && steps == [] && Coherent()
    {
      this.codec, this.start, machine, steps := codec, start, start, [];
      targets, temps, locks := start.targets, start.temps, start.locks;
    }

    ghost method Take(id: TaskId, a: Action)
      requires machine == Exec(codec, start, steps) && Undisturbed(steps) && !Corrupts(a)
      modifies this`machine, this`steps
      ensures machine == Apply(codec, old(machine), id, a) == Exec(codec, start, steps) && Undisturbed(steps)
      ensures steps == old(steps) + [(id, a)]
    {
      hide Apply, Exec;
      ExecSnoc(codec, start, steps, id, a);
      machine := Apply(codec, machine, id, a);
      steps := steps + [(id, a)];
    }

    /** What a cache that began empty then holds, whoever has resolved what: complete, marked directories only,
        each filled once. */
    lemma TargetsAreComplete(key: Digest)
      requires Coherent() && Sane(codec) && Initial(start) && key in targets
      ensures TargetSafe(codec, key, targets[key])
      ensures key in machine.populated && machine.populated[key] == 1 && machine.purges == 0
    {
      hide Exec, Sane, Initial, TargetSafe, Undisturbed;
      assert CleanRun(codec, start, steps);
      EveryTargetIsComplete(codec, start, steps, key);
    }

    /** The chunk loop, with its running size and digest, and the final check. */
    method ReceiveObject(id: TaskId, ghost t: Task, e: Entry, next: nat, body: Body, ghost before: ModelDir) returns (ok: bool)
      requires Coherent() && At(id, t, Receiving(next, [])) && id in temps && temps[id] == Put(before, e.path, [])
      requires next < |t.m.files| && t.m.files[next] == e
      modifies this`temps, this`machine, this`steps
      ensures Coherent() && id in temps && Drop(temps, id) == Drop(old(temps), id) && old(steps) <= steps
      ensures At(id, t, if ok then Filling(next + 1) else Cleaning)
      ensures ok <==> !body.breaks && |Join(body.chunks)| == e.size && codec.sha256(Join(body.chunks)) == e.sha256
      ensures ok ==> temps[id] == Put(before, e.path, Join(body.chunks))
    {
      hide Exec, Apply, Undisturbed, Drop, Join, Put;
      NothingJoined(body.chunks);
      PutAgain(before, e.path, [], []);
      var got: Bytes := [];
      var i := 0;
      while i < |body.chunks|
        invariant 0 <= i <= |body.chunks|
        invariant Coherent() && At(id, t, Receiving(next, got)) && id in temps
        invariant Drop(temps, id) == Drop(old(temps), id) && old(steps) <= steps
        invariant got == Join(body.chunks[..i]) && temps[id] == Put(before, e.path, got)
      {
        var chunk := body.chunks[i];
        JoinSnoc(body.chunks, i);
        JoinPrefix(body.chunks, i + 1);
        PutAgain(before, e.path, got, got + chunk);
        ReceiveMoves(codec, machine, id, t, e, next, got, chunk);
        if |got| + |chunk| > e.size {
          Take(id, Receive(chunk));
          return false;
        }
        DropSet(temps, id, Put(temps[id], e.path, got + chunk));
        temps := temps[id := Put(temps[id], e.path, temps[id].files[e.path] + chunk)];
        Take(id, Receive(chunk));
        got := got + chunk;
        i := i + 1;
      }
      assert body.chunks[..i] == body.chunks;
      PutAgain(before, e.path, got, got);
      if body.breaks {
        RaiseMoves(codec, machine, id, t, Receiving(next, got));
        Take(id, Raise);
        return false;
      }
      ok := |got| == e.size && codec.sha256(got) == e.sha256;
      EndMoves(codec, machine, id, t, e, next, got);
      Take(id, EndObject);
    }

    /** One object, created exclusively. */
    method FetchObject(id: TaskId, ghost t: Task, e: Entry, next: nat, bucket: Bucket) returns (ok: bool)
      requires Coherent() && At(id, t, Filling(next)) && id in temps
      requires next < |t.m.files| && t.m.files[next] == e
      modifies this`temps, this`machine, this`steps
      ensures Coherent() && id in temps && Drop(temps, id) == Drop(old(temps), id) && old(steps) <= steps
      ensures At(id, t, if ok then Filling(next + 1) else Cleaning)
      ensures ok <==> Arrives(codec, bucket, e) && e.path !in old(temps[id]).files
      ensures ok ==> temps[id] == Put(old(temps[id]), e.path, Join(bucket[e.path].chunks))
    {
      hide Exec, Apply, Undisturbed, Drop, Join, Put;
      if e.path !in bucket {
        RaiseMoves(codec, machine, id, t, Filling(next));
        Take(id, Raise);
        return false;
      }
      OpenMoves(codec, machine, id, t, e, next);
      if e.path in temps[id].files {
        Take(id, OpenObject);
        return false;
      }
      DropSet(temps, id, Put(temps[id], e.path, []));
      temps := temps[id := Put(temps[id], e.path, [])];
      Take(id, OpenObject);
      ok := ReceiveObject(id, t, e, next, bucket[e.path], old(temps[id]));
    }

    /** Removal of a target: its files one by one, then the rest of it. */
    method RemoveTarget(id: TaskId, ghost t: Task, key: Digest)
      requires Coherent() && At(id, t, Purging) && key == Key(codec, t) && key in targets
      modifies this`targets, this`machine, this`steps
      ensures Coherent() && old(steps) <= steps && At(id, t, Creating) && targets == Drop(old(targets), key)
    {
      hide Exec, Apply, Undisturbed, CacheKey, ManifestDigest;
      if targets[key].Directory? {
        var files := targets[key].dir.files;
        while files != map[]
          invariant Coherent() && At(id, t, Purging) && old(steps) <= steps
          invariant key in targets && targets[key].Directory? && targets[key].dir.files == files
          invariant Drop(targets, key) == Drop(old(targets), key)
          decreases files.Keys
        {
          var path :| path in files;
          PurgeFileMoves(codec, machine, id, t, path);
          files := Drop(files, path);
          targets := targets[key := Directory(targets[key].dir.(files := files))];
          Take(id, PurgeFile(path));
        }
      }
      targets := Drop(targets, key);
      PurgeMoves(codec, machine, id, t);
      Take(id, PurgeRest);
    }

    /** A matching marker's target is validated again. */
    method Revalidate(id: TaskId, ghost t: Task, key: Digest, strict: bool) returns (hit: bool)
      requires Coherent() && At(id, t, Revalidating) && t.strict == strict && key == Key(codec, t)
      requires key in targets && targets[key].Directory?
      modifies this`locks, this`machine, this`steps
      ensures Coherent() && old(steps) <= steps
      ensures hit <==> Valid(codec, targets[key].dir, strict)
      ensures if hit then At(id, t.(seen := targets[key].dir), Returned) && locks == Drop(old(locks), key)
              else At(id, t, Purging) && locks == old(locks)
    {
      hide Exec, Apply, Undisturbed, ManifestDigest, CacheKey, Valid, Drop;
      RevalidateMoves(codec, machine, id, t);
      Take(id, ModelCache.Revalidate);
      hit := Valid(codec, targets[key].dir, strict);
      if hit {
        locks := Drop(locks, key);
      }
    }

    /** The look at the target: hit, or made sure it is not there. */
    method Lookup(id: TaskId, ghost t: Task, m: ModelManifest, key: Digest, strict: bool) returns (hit: bool)
      requires Coherent() && At(id, t, Inspecting) && t.m == m && t.strict == strict && key == Key(codec, t)
      modifies this`targets, this`locks, this`machine, this`steps
      ensures Coherent() && old(steps) <= steps
      ensures hit <==> key in old(targets) && old(targets)[key].Directory?
                       && MarkerMatches(codec, old(targets)[key].dir.files, ManifestDigest(codec, m))
                       && Valid(codec, old(targets)[key].dir, strict)
      ensures if hit then
                && targets == old(targets) && locks == Drop(old(locks), key)
                && At(id, t.(seen := targets[key].dir), Returned)
              else At(id, t, Creating) && targets == Drop(old(targets), key) && locks == old(locks)
    {
      hide Exec, Apply, Undisturbed, ManifestDigest, CacheKey, Valid, MarkerMatches, Drop;
      InspectMoves(codec, machine, id, t);
      Take(id, Inspect);
      if key !in targets {
        DropAbsent(targets, key);
        return false;
      }
      if targets[key].Directory? && MarkerMatches(codec, targets[key].dir.files, ManifestDigest(codec, m)) {
        hit := Revalidate(id, t, key, strict);
        if hit {
          return true;
        }
      }
      RemoveTarget(id, t, key);
      return false;
    }

    /** The temporary directory, with the manifest in it. */
    method MakeDirectory(id: TaskId, ghost t: Task, raw: Bytes)
      requires Coherent() && At(id, t, Creating) && t.raw == raw
      modifies this`temps, this`machine, this`steps
      ensures Coherent() && id in temps && Drop(temps, id) == Drop(old(temps), id) && old(steps) <= steps
      ensures At(id, t, Filling(0)) && temps[id] == Put(ModelDir(map[], {}), MANIFEST_NAME, raw)
    {
      hide Exec, Apply, Undisturbed, Put;
      temps := temps[id := ModelDir(map[], {})];
      MakeTempMoves(codec, machine, id, t);
      Take(id, MakeTemp);
      temps := temps[id := Put(temps[id], MANIFEST_NAME, raw)];
      SeedMoves(codec, machine, id, t);
      Take(id, SeedManifest);
    }

    /** The temporary directory, the manifest and every object. */
    method FetchAll(id: TaskId, ghost t: Task, m: ModelManifest, raw: Bytes, bucket: Bucket) returns (ok: bool)
      requires Coherent() && At(id, t, Creating) && t.m == m && t.raw == raw
      modifies this`temps, this`machine, this`steps
      ensures Coherent() && id in temps && Drop(temps, id) == Drop(old(temps), id) && old(steps) <= steps
      ensures At(id, t, if ok then Filling(|m.files|) else Cleaning)
      ensures ok <==> Whole(codec, m.files, bucket)
      ensures ok ==> temps[id] == Copy(raw, m.files, bucket)
    {
      hide Exec, Apply, Undisturbed, Drop, Put, Join, Copy, Whole, Arrives, Copied;
      CopiedNone(codec, raw, m.files, bucket);
      MakeDirectory(id, t, raw);
      for i := 0 to |m.files|
        invariant Coherent() && At(id, t, Filling(i)) && id in temps
        invariant Drop(temps, id) == Drop(old(temps), id) && old(steps) <= steps
        invariant Copied(codec, temps[id], raw, m.files, i, bucket)
      {
        CopiedOne(codec, temps[id], raw, m.files, i, bucket);
        ok := FetchObject(id, t, m.files[i], i, bucket);
        if !ok {
          PartOfWhole(codec, m.files, bucket, i + 1);
          return false;
        }
      }
      CopiedAll(codec, temps[id], raw, m.files, bucket);
      return true;
    }

    /** Validation of what was fetched. */
    method Validate(id: TaskId, ghost t: Task, m: ModelManifest, strict: bool) returns (ok: bool)
      requires Coherent() && At(id, t, Filling(|m.files|)) && id in temps && t.m == m && t.strict == strict
      modifies this`machine, this`steps
      ensures Coherent() && old(steps) <= steps
      ensures ok <==> Valid(codec, temps[id], strict)
      ensures if ok then At(id, t.(seen := temps[id]), Marking) else At(id, t, Cleaning)
    {
      hide Exec, Apply, Undisturbed, Valid;
      EndFilesMoves(codec, machine, id, t);
      Take(id, EndFiles);
      CheckMoves(codec, machine, id, t);
      Take(id, Check);
      ok := Valid(codec, temps[id], strict);
    }

    /** Validation of what was fetched, and the marker. */
    method Seal(id: TaskId, ghost t: Task, m: ModelManifest, strict: bool) returns (ok: bool, ghost seen: ModelDir)
      requires Coherent() && At(id, t, Filling(|m.files|)) && id in temps && t.m == m && t.strict == strict
      modifies this`temps, this`machine, this`steps
      ensures Coherent() && id in temps && Drop(temps, id) == Drop(old(temps), id) && old(steps) <= steps
      ensures if ok then
                && seen == old(temps[id]) && Valid(codec, seen, strict) && At(id, t.(seen := seen), Publishing)
                && temps[id] == Put(seen, MARKER_NAME, Marker(codec, ManifestDigest(codec, m)))
              else At(id, t, Cleaning)
      ensures ok <==> Valid(codec, old(temps[id]), strict)
    {
      hide Exec, Apply, Undisturbed, ManifestDigest, Valid, Put, Marker, Drop;
      seen := temps[id];
      ok := Validate(id, t, m, strict);
      if ok {
        MarkMoves(codec, machine, id, t.(seen := seen));
        DropSet(temps, id, Put(temps[id], MARKER_NAME, Marker(codec, ManifestDigest(codec, m))));
        temps := temps[id := Put(temps[id], MARKER_NAME, Marker(codec, ManifestDigest(codec, m)))];
        Take(id, Mark);
      }
    }

    /** The rename onto the target, and the end of the lock's scope. */
    method PublishTemporary(id: TaskId, ghost t: Task, key: Digest)
      requires Coherent() && At(id, t, Publishing) && id in temps && key == Key(codec, t) && key !in targets
      modifies this`targets, this`temps, this`locks, this`machine, this`steps
      ensures Coherent() && old(steps) <= steps && At(id, t, Returned)
      ensures targets == old(targets)[key := Directory(old(temps[id]))]
      ensures temps == Drop(old(temps), id) && locks == Drop(old(locks), key)
    {
      hide Exec, Apply, Undisturbed, CacheKey, ManifestDigest, Drop;
      PublishMoves(codec, machine, id, t);
      targets := targets[key := Directory(temps[id])];
      temps := Drop(temps, id);
      locks := Drop(locks, key);
      Take(id, Publish);
    }

    /** The except clause, and the end of the lock's scope. */
    method CleanUp(id: TaskId, ghost t: Task, key: Digest)
      requires Coherent() && At(id, t, Cleaning) && id in temps && key == Key(codec, t)
      modifies this`temps, this`locks, this`machine, this`steps
      ensures Coherent() && old(steps) <= steps && At(id, t, Failed)
      ensures temps == Drop(old(temps), id) && locks == Drop(old(locks), key)
    {
      hide Exec, Apply, Undisturbed, CacheKey, ManifestDigest, Drop;
      CleanMoves(codec, machine, id, t);
      temps := Drop(temps, id);
      locks := Drop(locks, key);
      Take(id, Clean);
    }

    /** The try block and its except clause: the target is renamed into place, or nothing is left behind. */
    method Populate(id: TaskId, ghost t: Task, m: ModelManifest, raw: Bytes, key: Digest, strict: bool, bucket: Bucket)
      returns (ok: bool, ghost seen: ModelDir)
      requires Coherent() && At(id, t, Creating) && key == Key(codec, t) && key !in targets
      requires t.m == m && t.raw == raw && t.strict == strict
      modifies this`targets, this`temps, this`locks, this`machine, this`steps
      ensures Coherent() && old(steps) <= steps
      ensures temps == Drop(old(temps), id) && locks == Drop(old(locks), key)
      ensures if ok then
                && Valid(codec, seen, strict) && At(id, t.(seen := seen), Returned)
                && targets == old(targets)[key := Directory(Put(seen, MARKER_NAME, Marker(codec, ManifestDigest(codec, m))))]
              else At(id, t, Failed) && targets == old(targets)
      ensures ok <==> Resolvable(codec, raw, m, bucket, strict)
      ensures ok ==> key in targets && Filled(codec, targets[key], raw, m, bucket)
    {
      hide Whole, Copy, Exec, Apply, Undisturbed, ManifestDigest, CacheKey, Valid, Put, Marker, Drop, Coherent;
      ok := FetchAll(id, t, m, raw, bucket);
      seen := t.seen;
      if ok {
        ok, seen := Seal(id, t, m, strict);
      }
      if ok {
        PublishTemporary(id, t.(seen := seen), key);
      } else {
        CleanUp(id, t, key);
      }
    }

    /** resolve, with nobody else moving meanwhile; None stands for any raised error, the lock's timeout among
        them.  A returned key holds a directory that validates, and a whole revision is always resolved. */
    method Resolve(id: TaskId, source: Source, strict: bool, raw: Bytes, bucket: Bucket) returns (r: Option<Digest>)
      requires Coherent() && id !in temps && id in machine.tasks && machine.tasks[id].phase == Ready
      requires machine.tasks[id].source == source && machine.tasks[id].strict == strict
      modifies this`targets, this`temps, this`locks, this`machine, this`steps
      ensures Coherent() && old(steps) <= steps && locks == old(locks) && temps == old(temps)
      ensures id in machine.tasks
      ensures match r
              case None => machine.tasks[id].phase == Failed
              case Some(key) =>
                var t := machine.tasks[id];
                && t.phase == Returned && FromBytes(codec, raw) == Some(t.m) && t.source == source && t.strict == strict
                && key == CacheKey(codec, source, ManifestDigest(codec, t.m)) && key !in locks
                && key in targets && targets[key].Directory? && Valid(codec, targets[key].dir, strict)
                && targets[key].dir in {t.seen, Put(t.seen, MARKER_NAME, Marker(codec, ManifestDigest(codec, t.m)))}
      ensures match FromBytes(codec, raw)
              case None => r.None? && targets == old(targets)
              case Some(m) =>
                var key := CacheKey(codec, source, ManifestDigest(codec, m));
                var cached := Cached(codec, old(targets), key, m, strict);
                && (r.Some? <==> key !in locks && (cached || Resolvable(codec, raw, m, bucket, strict)))
                && (key in locks || cached ==> targets == old(targets))
                && (r.Some? && !cached ==> key in targets && Filled(codec, targets[key], raw, m, bucket))
                && Drop(targets, key) == Drop(old(targets), key)
    {
      hide Exec, Apply, Undisturbed, ManifestDigest, CacheKey, Valid, FromBytes, Put, Marker, Resolvable, MarkerMatches, Drop, Filled;
      ghost var t := machine.tasks[id];
      var parsed := ReadManifestOf(id, raw);
      if parsed.None? {
        return None;
      }
      var m := parsed.value;
      t := t.(raw := raw, m := m);
      var key := CacheKey(codec, source, ManifestDigest(codec, m));
      var locked := Lock(id, t, key);
      if !locked {
        return None;
      }
      DropSet(old(locks), key, id);
      DropAbsent(old(locks), key);
      r := ResolveLocked(id, t, m, raw, key, strict, bucket);
    }

    method ReadManifestOf(id: TaskId, raw: Bytes) returns (parsed: Option<ModelManifest>)
      requires Coherent() && id in machine.tasks && machine.tasks[id].phase == Ready
      modifies this`machine, this`steps
      ensures Coherent() && old(steps) <= steps && parsed == FromBytes(codec, raw)
      ensures match parsed
              case None => At(id, old(machine.tasks[id]), Failed)
              case Some(m) => At(id, old(machine.tasks[id]).(raw := raw, m := m), Fetched)
      ensures parsed.Some? <==> |raw| <= 4 * 1024 * 1024 && codec.parse(raw).Some? && WellFormed(codec.parse(raw).value)
    {
      hide Exec, Apply, Undisturbed, FromBytes, WellFormed;
      ReadsExactly(codec, raw);
      ReadMoves(codec, machine, id, raw);
      Take(id, ReadManifest(raw));
      parsed := FromBytes(codec, raw);
    }

    /** The file lock; one that is held stays held, and the wait for it times out. */
    method Lock(id: TaskId, ghost t: Task, key: Digest) returns (locked: bool)
      requires Coherent() && At(id, t, Fetched) && key == Key(codec, t)
      modifies this`locks, this`machine, this`steps
      ensures Coherent() && old(steps) <= steps && (locked <==> key !in old(locks))
      ensures if locked then At(id, t, Inspecting) && locks == old(locks)[key := id]
              else At(id, t, Failed) && locks == old(locks)
    {
      hide Exec, Apply, Undisturbed, CacheKey, ManifestDigest;
      if key in locks {
        GiveUpMoves(codec, machine, id, t);
        Take(id, Raise);
        return false;
      }
      AcquireMoves(codec, machine, id, t);
      locks := locks[key := id];
      Take(id, Acquire);
      return true;
    }

    /** The lock's scope. */
    method ResolveLocked(id: TaskId, ghost t: Task, m: ModelManifest, raw: Bytes, key: Digest, strict: bool, bucket: Bucket)
      returns (r: Option<Digest>)
      requires Coherent() && At(id, t, Inspecting) && id !in temps && key == Key(codec, t)
      requires t.m == m && t.raw == raw && t.strict == strict
      modifies this`targets, this`temps, this`locks, this`machine, this`steps
      ensures Coherent() && old(steps) <= steps && locks == Drop(old(locks), key) && temps == old(temps)
      ensures if r.None? then At(id, t, Failed)
              else
                && r == Some(key) && id in machine.tasks
                && var seen := machine.tasks[id].seen;
                && At(id, t.(seen := seen), Returned)
                && key in targets && targets[key].Directory? && Valid(codec, targets[key].dir, strict)
                && targets[key].dir in {seen, Put(seen, MARKER_NAME, Marker(codec, ManifestDigest(codec, m)))}
      ensures r.Some? <==> Cached(codec, old(targets), key, m, strict) || Resolvable(codec, raw, m, bucket, strict)
      ensures Cached(codec, old(targets), key, m, strict) ==> targets == old(targets)
      ensures r.Some? && !Cached(codec, old(targets), key, m, strict) ==> Filled(codec, targets[key], raw, m, bucket)
      ensures Drop(targets, key) == Drop(old(targets), key)
      ensures r.None? ==> key !in targets
    {
      hide Exec, Apply, Undisturbed, ManifestDigest, CacheKey, Valid, Put, Marker, Resolvable, MarkerMatches, Filled;
      var hit := Lookup(id, t, m, key, strict);
      if hit {
        return Some(key);
      }
      var ok, seen := Populate(id, t, m, raw, key, strict, bucket);
      DropAbsent(old(temps), id);
      if !ok {
        return None;
      }
      MarkingKeepsValid(codec, seen, Marker(codec, ManifestDigest(codec, m)), strict);
      return Some(key);
    }
  }
}
