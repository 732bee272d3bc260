/**
 The publisher's program and the resolver's, one after the other: what is published is what is resolved.
 */
module RoundTrip {
  import opened EngineBase
  import opened Manifest
  import opened ModelCache
  import opened ModelCacheClean
  import opened Publish
  import opened Resolver
  import opened Sequences

  /** An empty cache and one call of resolve about to start. */
  function OneCall(source: Source, strict: bool): State {
    var task := Task(source, strict, Ready, [], ModelManifest("", "", Gguf, []), ModelDir(map[], {}));
    State(map[], map[], map[], map[0 := task], map[], 0)
  }

  /** The store's objects as bodies that arrive in one chunk. */
  function Served(objects: Objects): Bucket {
    map key | key in objects :: Body([objects[key]], false)
  }

  lemma ServedServes(objects: Objects)
    ensures Serves(Served(objects), objects)
  {
    forall key | key in objects ensures Join(Served(objects)[key].chunks) == objects[key] {
      var chunks := [objects[key]];
      JoinSnoc(chunks, 0);
      NothingJoined(chunks);
      assert chunks[..1] == chunks;
    }
  }

  /** After a publication to the end, an empty store holds the program's uploads, the manifest last. */
  lemma PublishedStore(c: Codec, dir: ModelDir, log: seq<Upload>, failing: nat) returns (m: ModelManifest)
    requires Published(c, dir, [], log, failing, true)
    ensures Publishable(c, dir, m) && HasFiles(dir, m.files) && log == Program(dir, m.files) && failing > |m.files|
    ensures MANIFEST_NAME in StoreAfter(map[], log) && StoreAfter(map[], log)[MANIFEST_NAME] == dir.files[MANIFEST_NAME]
  {
    hide Publishable;
    m :| Publishable(c, dir, m) && Appended(dir, m.files, [], log, failing) && failing > |m.files|;
    var program := Program(dir, m.files);
    assert log == program by {
      assert program[..|program|] == program;
    }
    assert program[|program| - 1] == Upload(MANIFEST_NAME, dir.files[MANIFEST_NAME]);
  }

  lemma OneManifest(c: Codec, dir: ModelDir, m: ModelManifest, n: ModelManifest)
    requires Publishable(c, dir, m) && Publishable(c, dir, n)
    ensures m == n
  {
    hide FromBytes;
  }

  lemma CutShort(c: Codec, dir: ModelDir, before: seq<Upload>, after: seq<Upload>, failing: nat, m: ModelManifest)
    requires Published(c, dir, before, after, failing, false) && Publishable(c, dir, m)
    ensures failing <= |m.files|
  {
    hide Publishable;
    var n :| Publishable(c, dir, n) && Appended(dir, n.files, before, after, failing) && failing <= |n.files|;
    OneManifest(c, dir, m, n);
  }

  lemma PublishedReads(c: Codec, dir: ModelDir, m: ModelManifest, objects: Objects, strict: bool)
    requires Publishable(c, dir, m) && HasFiles(dir, m.files) && MANIFEST_NAME !in Paths(m.files)
    requires objects == StoreAfter(map[], Program(dir, m.files))
    ensures FromBytes(c, dir.files[MANIFEST_NAME]) == Some(m)
    ensures Resolvable(c, dir.files[MANIFEST_NAME], m, Served(objects), strict)
  {
    hide Publishable, StoreAfter, Program, Resolvable, Paths, FromBytes;
    ServedServes(objects);
    PublishedIsResolvable(c, dir, m, map[], Served(objects), strict);
  }

  lemma OneCallIsReady(source: Source, strict: bool)
    ensures var s := OneCall(source, strict);
            && Initial(s) && 0 in s.tasks && s.tasks[0].phase == Ready && s.tasks[0].source == source
            && s.tasks[0].strict == strict && s.temps == map[] && s.locks == map[]
  {
  }

  /** A cache that was just empty resolves a published directory to its artifacts. */
  method ResolvePublished(c: Codec, dir: ModelDir, ghost m: ModelManifest, objects: Objects, source: Source, strict: bool)
    returns (resolved: ModelDir)
    requires Sane(c) && Publishable(c, dir, m) && HasFiles(dir, m.files) && MANIFEST_NAME !in Paths(m.files)
    requires objects == StoreAfter(map[], Program(dir, m.files))
    requires MANIFEST_NAME in objects && objects[MANIFEST_NAME] == dir.files[MANIFEST_NAME]
    ensures SameArtifacts(resolved, dir)
  {
    hide *;
    assert MANIFEST_NAME in dir.files by { PublishableHasFiles(c, dir, m); HasManifest(dir, m.files); }
    PublishedReads(c, dir, m, objects, strict);
    OneCallIsReady(source, strict);
    var start := OneCall(source, strict);
    var cache := new CacheDirectory(c, start);
    var key := cache.Resolve(0, source, strict, objects[MANIFEST_NAME], Served(objects));
    resolved := cache.targets[key.value].dir;
    CacheRan(cache, source, key.value);
    ReturnedTheSame(c, dir, m, start, cache.steps, cache.machine);
  }

  lemma HasManifest(dir: ModelDir, files: seq<Entry>)
    requires HasFiles(dir, files)
    ensures MANIFEST_NAME in dir.files
  {
  }

  lemma CacheRan(cache: CacheDirectory, source: Source, key: Digest)
    requires cache.Coherent() && Sane(cache.codec) && Initial(cache.start)
    requires 0 in cache.machine.tasks && cache.machine.tasks[0].phase == Returned && cache.machine.tasks[0].source == source
    requires key == CacheKey(cache.codec, source, ManifestDigest(cache.codec, cache.machine.tasks[0].m))
    ensures CleanRun(cache.codec, cache.start, cache.steps)
    ensures cache.machine == Exec(cache.codec, cache.start, cache.steps) && cache.machine.targets == cache.targets
    ensures Returns(cache.machine, 0) && key == Key(cache.codec, cache.machine.tasks[0])
  {
    hide Exec, Sane, Initial, Undisturbed, CacheKey, ManifestDigest;
  }

  lemma ReturnedTheSame(c: Codec, dir: ModelDir, m: ModelManifest, s: State, steps: seq<Step>, s': State)
    requires CleanRun(c, s, steps) && s' == Exec(c, s, steps) && Returns(s', 0)
    requires s'.tasks[0].m == m && Publishable(c, dir, m)
    ensures var key := Key(c, s'.tasks[0]);
            key in s'.targets && s'.targets[key].Directory? && SameArtifacts(s'.targets[key].dir, dir)
  {
    hide CleanRun, Exec, ValidAgainst, Key;
    AnArtifact();
    ReturnedIsTheRevision(c, s, steps, 0, dir, "a");
    forall path | IsArtifact(path)
      ensures var target := s'.targets[Key(c, s'.tasks[0])].dir;
              && (path in target.files <==> path in dir.files)
              && (path in dir.files ==> target.files[path] == dir.files[path])
    {
      ReturnedIsTheRevision(c, s, steps, 0, dir, path);
    }
  }

  /** A directory published to an empty store and resolved into an empty cache comes back artifact for
      artifact, unless the publication was refused or cut short. */
  method PublishThenResolve(c: Codec, dir: ModelDir, listing: seq<string>, failing: nat, source: Source, strict: bool)
    returns (resolved: Option<ModelDir>)
    requires Sane(c) && Lists(listing, dir.files)
    requires forall m :: Publishable(c, dir, m) ==> MANIFEST_NAME !in Paths(m.files)
    ensures resolved.Some? <==> exists m :: Publishable(c, dir, m) && failing > |m.files|
    ensures resolved.Some? ==> SameArtifacts(resolved.value, dir)
  {
    hide Sane, Publishable, StoreAfter, Program, Published, Paths, SameArtifacts;
    var store := new ObjectStore(map[]);
    var summary := store.PublishRevision(c, dir, listing, failing);
    if summary.None? {
      forall m | Publishable(c, dir, m) ensures failing <= |m.files| {
        CutShort(c, dir, [], store.log, failing, m);
      }
      return None;
    }
    ghost var m := PublishedStore(c, dir, store.log, failing);
    var target := ResolvePublished(c, dir, m, store.objects, source, strict);
    return Some(target);
  }
}
