/**
 Publishing a revision: every artifact is uploaded before the manifest, so that a reader who
 fetches the manifest first finds one whole revision or fails.
 */
module Publish {
  import opened EngineBase
  import opened ArtifactPath
  import opened Manifest
  import opened ModelCache
  import opened ModelCacheClean
  import opened Sequences
  import R = Resolver

  /** One upload below the destination prefix. */
  datatype Upload = Upload(key: string, content: Bytes)

  type Objects = map<string, Bytes>

  function StoreAfter(initial: Objects, log: seq<Upload>): Objects {
    if log == [] then initial
    else StoreAfter(initial, log[..|log| - 1])[log[|log| - 1].key := log[|log| - 1].content]
  }

  predicate HasFiles(dir: ModelDir, files: seq<Entry>) {
    MANIFEST_NAME in dir.files && forall i | 0 <= i < |files| :: files[i].path in dir.files
  }

  /** All uploads of one publication, in order: the artifacts, then the manifest. */
  function Program(dir: ModelDir, files: seq<Entry>): seq<Upload>
    requires HasFiles(dir, files)
  {
    seq(|files|, i requires 0 <= i < |files| => Upload(files[i].path, dir.files[files[i].path]))
    + [Upload(MANIFEST_NAME, dir.files[MANIFEST_NAME])]
  }

  lemma ProgramLength(dir: ModelDir, files: seq<Entry>)
    requires HasFiles(dir, files)
    ensures |Program(dir, files)| == |files| + 1
  {
  }

  /** A revision a publisher accepts: a directory that validates strictly against its manifest. */
  ghost predicate Publishable(c: Codec, dir: ModelDir, m: ModelManifest) {
    ValidAgainst(c, dir, m, true)
  }

  lemma PublishableHasFiles(c: Codec, dir: ModelDir, m: ModelManifest)
    requires Publishable(c, dir, m)
    ensures HasFiles(dir, m.files)
  {
    assert forall i | 0 <= i < |m.files| :: Matches(c, dir.files, m.files[i]);
  }

  function Least(a: nat, b: nat): nat {
    if a < b then a else b
  }

  /** What one run of the publisher appends to the log. */
  ghost predicate Published(c: Codec, dir: ModelDir, before: seq<Upload>, after: seq<Upload>, failing: nat, ok: bool) {
    exists m :: Publishable(c, dir, m) && Appended(dir, m.files, before, after, failing) && (ok <==> failing > |m.files|)
  }

  ghost predicate Appended(dir: ModelDir, files: seq<Entry>, before: seq<Upload>, after: seq<Upload>, failing: nat) {
    HasFiles(dir, files) && after == before + Program(dir, files)[..Least(failing, |files| + 1)]
  }

  /** The object store's prefix, with the uploads made to it so far. */
  class ObjectStore {
    var objects: Objects
    ghost var initial: Objects
    ghost var log: seq<Upload>

    ghost predicate Valid()
      reads this
    {
      objects == StoreAfter(initial, log)
    }

    constructor (objects: Objects)
      ensures Valid() && this.objects == initial == objects && log == []
    {
      this.objects, initial, log := objects, objects, [];
    }

    method UploadFile(key: string, content: Bytes)
      requires Valid()
      modifies this
      ensures Valid() && initial == old(initial) && log == old(log) + [Upload(key, content)]
    {
      objects := objects[key := content];
      log := log + [Upload(key, content)];
      assert log[..|log| - 1] == old(log);
    }

    /** The artifact loop and the manifest upload.  An upload may fail, which ends the run; `failing`
        says before which one. */
    method UploadAll(dir: ModelDir, files: seq<Entry>, failing: nat) returns (ok: bool)
      requires Valid() && HasFiles(dir, files)
      modifies this
      ensures Valid() && initial == old(initial)
      ensures log == old(log) + Program(dir, files)[..Least(failing, |files| + 1)]
      ensures ok <==> failing > |files|
    {
      ghost var program := Program(dir, files);
      for i := 0 to |files|
        invariant Valid() && initial == old(initial)
        invariant i <= failing && log == old(log) + program[..i]
      {
        if i == failing {
          return false;
        }
        UploadFile(files[i].path, dir.files[files[i].path]);
        assert program[..i + 1] == program[..i] + [program[i]];
      }
      if failing == |files| {
        return false;
      }
      UploadFile(MANIFEST_NAME, dir.files[MANIFEST_NAME]);
      assert program == program[..|files|] + [program[|files|]];
      return true;
    }

    /** The publisher: nothing is uploaded of a directory that does not validate strictly. */
    method PublishRevision(c: Codec, dir: ModelDir, listing: seq<string>, failing: nat) returns (r: Option<Summary>)
      requires Valid() && Lists(listing, dir.files)
      modifies this
      ensures Valid() && initial == old(initial)
      ensures r.Some? ==> Publishable(c, dir, r.value.manifest)
      ensures if exists m :: Publishable(c, dir, m) then Published(c, dir, old(log), log, failing, r.Some?)
              else log == old(log) && r.None?
    {
      hide ValidAgainst, Program;
      r := ValidateModelDirectory(c, Plain(dir), listing, true);
      if r.None? {
        return;
      }
      PublishableHasFiles(c, dir, r.value.manifest);
      var ok := UploadAll(dir, r.value.manifest.files, failing);
      assert Appended(dir, r.value.manifest.files, old(log), log, failing);
      assert Published(c, dir, old(log), log, failing, ok);
      if !ok {
        r := None;
      }
    }
  }

  /******* One publisher on a prefix without a manifest *******/

  lemma {:induction false} StoreIgnores(initial: Objects, log: seq<Upload>, key: string)
    requires forall i | 0 <= i < |log| :: log[i].key != key
    ensures key in StoreAfter(initial, log) <==> key in initial
    ensures key in initial ==> StoreAfter(initial, log)[key] == initial[key]
  {
    if log != [] {
      StoreIgnores(initial, log[..|log| - 1], key);
    }
  }

  lemma {:induction false} StoreKeepsUnique(initial: Objects, log: seq<Upload>, i: nat)
    requires i < |log| && forall j | 0 <= j < |log| && j != i :: log[j].key != log[i].key
    ensures log[i].key in StoreAfter(initial, log) && StoreAfter(initial, log)[log[i].key] == log[i].content
  {
    if i < |log| - 1 {
      StoreKeepsUnique(initial, log[..|log| - 1], i);
    }
  }

  /** On a prefix that holds no manifest yet, a reader that finds the manifest, after however many of
      the uploads, finds at that moment and ever after every artifact it names, matching its entry. */
  lemma ManifestMeansWholeRevision(c: Codec, dir: ModelDir, m: ModelManifest, initial: Objects, done: nat, i: nat)
    requires Publishable(c, dir, m) && HasFiles(dir, m.files)
    requires MANIFEST_NAME !in initial && MANIFEST_NAME !in Paths(m.files)
    requires done <= |Program(dir, m.files)| && i < |m.files|
    requires MANIFEST_NAME in StoreAfter(initial, Program(dir, m.files)[..done])
    ensures done == |Program(dir, m.files)|
    ensures StoreAfter(initial, Program(dir, m.files))[MANIFEST_NAME] == dir.files[MANIFEST_NAME]
    ensures Matches(c, StoreAfter(initial, Program(dir, m.files)), m.files[i])
    ensures StoreAfter(initial, Program(dir, m.files))[m.files[i].path] == dir.files[m.files[i].path]
  {
    hide FromBytes, LoadManifest, TypesAllowed, NothingUnlisted;
    var program := Program(dir, m.files);
    assert forall j | 0 <= j < |m.files| :: program[j].key == Paths(m.files)[j];
    if done < |program| {
      StoreIgnores(initial, program[..done], MANIFEST_NAME);
    }
    assert program[..|program|] == program;
    UniquePaths(c, dir, m);
    assert Matches(c, dir.files, m.files[i]);
    assert Paths(m.files)[i] == m.files[i].path;
    StoreKeepsUnique(initial, program, |m.files|);
    StoreKeepsUnique(initial, program, i);
  }

  /** Bodies that read to their ends and give the stored objects, in whatever chunks. */
  ghost predicate Serves(bucket: R.Bucket, objects: Objects) {
    forall key :: key in objects ==>
      key in bucket && !bucket[key].breaks && Join(bucket[key].chunks) == objects[key]
  }

  /** The round trip: what was published in full is what every later resolver on its own can resolve. */
  lemma PublishedIsResolvable(c: Codec, dir: ModelDir, m: ModelManifest, initial: Objects, bucket: R.Bucket, strict: bool)
    requires Publishable(c, dir, m) && HasFiles(dir, m.files)
    requires MANIFEST_NAME !in Paths(m.files)
    requires Serves(bucket, StoreAfter(initial, Program(dir, m.files)))
    ensures FromBytes(c, dir.files[MANIFEST_NAME]) == Some(m)
    ensures R.Resolvable(c, dir.files[MANIFEST_NAME], m, bucket, strict)
  {
    hide FromBytes, Join, TypesAllowed, NothingUnlisted, StoreAfter, Program, R.Resolvable, Paths;
    UniquePaths(c, dir, m);
    var store := StoreAfter(initial, Program(dir, m.files));
    forall i | 0 <= i < |m.files| ensures R.Arrives(c, bucket, m.files[i]) {
      assert Matches(c, store, m.files[i]) by { PublishedMatches(c, dir, m, initial, i); }
      assert Join(bucket[m.files[i].path].chunks) == store[m.files[i].path];
    }
    R.CopyValidates(c, dir, m, bucket, strict);
  }

  lemma PublishedMatches(c: Codec, dir: ModelDir, m: ModelManifest, initial: Objects, i: nat)
    requires Publishable(c, dir, m) && HasFiles(dir, m.files)
    requires MANIFEST_NAME !in Paths(m.files) && i < |m.files|
    ensures Matches(c, StoreAfter(initial, Program(dir, m.files)), m.files[i])
  {
    hide FromBytes, LoadManifest, TypesAllowed, NothingUnlisted;
    var program := Program(dir, m.files);
    assert forall j | 0 <= j < |m.files| :: program[j].key == Paths(m.files)[j];
    UniquePaths(c, dir, m);
    assert Matches(c, dir.files, m.files[i]);
    StoreKeepsUnique(initial, program, i);
  }

  lemma UniquePaths(c: Codec, dir: ModelDir, m: ModelManifest)
    requires Publishable(c, dir, m)
    ensures Unique(Paths(m.files))
  {
    WellFormedOf(c, dir, m);
  }

  /******* Any publishers on a prefix in use *******/

  /** A directory and the manifest it validates strictly against. */
  datatype Revision = Revision(dir: ModelDir, m: ModelManifest)

  /** u is one of the uploads of publishing that revision. */
  ghost predicate UploadOf(c: Codec, revision: Revision, u: Upload) {
    && Publishable(c, revision.dir, revision.m) && HasFiles(revision.dir, revision.m.files)
    && u in Program(revision.dir, revision.m.files)
  }

  ghost predicate Belongs(c: Codec, u: Upload, revisions: set<Revision>) {
    exists revision :: revision in revisions && UploadOf(c, revision, u)
  }

  /** Everything uploaded belongs to the publication of one of the revisions. */
  ghost predicate OnlyPublished(c: Codec, log: seq<Upload>, revisions: set<Revision>) {
    forall i :: 0 <= i < |log| ==> Belongs(c, log[i], revisions)
  }

  /** One publisher's uploads among everybody's. */
  function UploadsBy(log: seq<Upload>, owners: seq<nat>, p: nat): seq<Upload>
    requires |owners| == |log|
  {
    if log == [] then []
    else
      var n := |log| - 1;
      UploadsBy(log[..n], owners[..n], p) + if owners[n] == p then [log[n]] else []
  }

  /** Publishers at work at once: each has made the first so many uploads of its revision, in order, and
      the log shuffles them in any way. */
  ghost predicate Shuffled(c: Codec, log: seq<Upload>, owners: seq<nat>, publishers: seq<Revision>)
    requires |owners| == |log|
  {
    && (forall i :: 0 <= i < |owners| ==> owners[i] < |publishers|)
    && forall p :: 0 <= p < |publishers| ==> InOrder(c, UploadsBy(log, owners, p), publishers[p])
  }

  ghost predicate InOrder(c: Codec, uploads: seq<Upload>, revision: Revision) {
    && Publishable(c, revision.dir, revision.m) && HasFiles(revision.dir, revision.m.files)
    && uploads <= Program(revision.dir, revision.m.files)
  }

  lemma {:induction false} UploadIsItsOwners(log: seq<Upload>, owners: seq<nat>, i: nat)
    requires |owners| == |log| && i < |log|
    ensures log[i] in UploadsBy(log, owners, owners[i])
  {
    var n := |log| - 1;
    if i < n {
      UploadIsItsOwners(log[..n], owners[..n], i);
    }
  }

  /** Any number of publishers, interleaved and cut short anywhere, upload only what they publish. */
  lemma ShuffledIsOnlyPublished(c: Codec, log: seq<Upload>, owners: seq<nat>, publishers: seq<Revision>,
                                revisions: set<Revision>)
    requires |owners| == |log| && Shuffled(c, log, owners, publishers)
    requires forall p :: 0 <= p < |publishers| ==> publishers[p] in revisions
    ensures OnlyPublished(c, log, revisions)
  {
    hide UploadsBy, Publishable, Program;
    forall i | 0 <= i < |log| ensures Belongs(c, log[i], revisions) {
      UploadIsItsOwners(log, owners, i);
      var p := owners[i];
      assert InOrder(c, UploadsBy(log, owners, p), publishers[p]);
      assert UploadOf(c, publishers[p], log[i]) && publishers[p] in revisions;
    }
  }

  /** So does the publisher's program, run after others, to its end or not. */
  lemma PublishingStaysOnlyPublished(c: Codec, dir: ModelDir, before: seq<Upload>, after: seq<Upload>, failing: nat,
                                     ok: bool, revisions: set<Revision>) returns (m: ModelManifest)
    requires OnlyPublished(c, before, revisions) && Published(c, dir, before, after, failing, ok)
    ensures Publishable(c, dir, m) && OnlyPublished(c, after, revisions + {Revision(dir, m)})
  {
    hide Publishable, Program;
    m :| Publishable(c, dir, m) && Appended(dir, m.files, before, after, failing) && (ok <==> failing > |m.files|);
    var revision := Revision(dir, m);
    forall i | 0 <= i < |after| ensures Belongs(c, after[i], revisions + {revision}) {
      if i < |before| {
        assert Belongs(c, before[i], revisions);
        var r :| r in revisions && UploadOf(c, r, before[i]);
        assert after[i] == before[i];
      } else {
        assert |Program(dir, m.files)| == |m.files| + 1 by { ProgramLength(dir, m.files); }
        assert after[i] == Program(dir, m.files)[i - |before|];
        assert UploadOf(c, revision, after[i]);
      }
    }
  }

  /** An upload under the manifest's key carries a manifest, even where an entry has that name. */
  lemma ManifestUploaded(dir: ModelDir, files: seq<Entry>, u: Upload)
    requires HasFiles(dir, files) && u in Program(dir, files) && u.key == MANIFEST_NAME
    ensures u.content == dir.files[MANIFEST_NAME]
  {
  }

  lemma {:induction false} StoredManifest(initial: Objects, log: seq<Upload>) returns (i: nat)
    requires MANIFEST_NAME !in initial && MANIFEST_NAME in StoreAfter(initial, log)
    ensures i < |log| && log[i] == Upload(MANIFEST_NAME, StoreAfter(initial, log)[MANIFEST_NAME])
  {
    i := |log| - 1;
    if log[i].key != MANIFEST_NAME {
      i := StoredManifest(initial, log[..i]);
    }
  }

  /** A target holds exactly the artifacts of a directory. */
  ghost predicate SameArtifacts(target: ModelDir, dir: ModelDir) {
    forall path :: IsArtifact(path) ==>
      (path in target.files <==> path in dir.files) && (path in dir.files ==> target.files[path] == dir.files[path])
  }

  lemma AnArtifact()
    ensures IsArtifact("a")
  {
    SplitOne("a", '/');
  }

  /** Whatever publishers write at the same prefix, in any order and at any time: a resolver that read
      its manifest there and returns hands out exactly the artifacts of one published revision, the one
      whose manifest it read. */
  lemma SnapshotOfOneRevision(c: Codec, s: State, steps: seq<Step>, id: TaskId, initial: Objects, log: seq<Upload>,
                              revisions: set<Revision>) returns (dir: ModelDir)
    requires CleanRun(c, s, steps) && Returns(Exec(c, s, steps), id)
    requires MANIFEST_NAME !in initial && OnlyPublished(c, log, revisions)
    requires MANIFEST_NAME in StoreAfter(initial, log)
    requires Exec(c, s, steps).tasks[id].raw == StoreAfter(initial, log)[MANIFEST_NAME]
    ensures var t := Exec(c, s, steps).tasks[id];
            && Revision(dir, t.m) in revisions && Publishable(c, dir, t.m)
            && MANIFEST_NAME in dir.files && dir.files[MANIFEST_NAME] == t.raw
    ensures var s' := Exec(c, s, steps);
            var key := Key(c, s'.tasks[id]);
            key in s'.targets && s'.targets[key].Directory? && SameArtifacts(s'.targets[key].dir, dir)
  {
    hide Exec, FromBytes, TypesAllowed, EntriesMatch, NothingUnlisted, Sane, CacheKey, ManifestDigest, Program;
    var i := StoredManifest(initial, log);
    assert Belongs(c, log[i], revisions);
    var revision :| revision in revisions && UploadOf(c, revision, log[i]);
    dir := revision.dir;
    ManifestUploaded(dir, revision.m.files, log[i]);
    ReturnedKnows(c, s, steps, id);
    AnArtifact();
    forall path | IsArtifact(path)
      ensures var s' := Exec(c, s, steps);
              var key := Key(c, s'.tasks[id]);
              && key in s'.targets && s'.targets[key].Directory?
              && (path in s'.targets[key].dir.files <==> path in dir.files)
              && (path in dir.files ==> s'.targets[key].dir.files[path] == dir.files[path])
    {
      ReturnedIsTheRevision(c, s, steps, id, dir, path);
    }
    assert IsArtifact("a");
  }

  lemma ReturnedKnows(c: Codec, s: State, steps: seq<Step>, id: TaskId)
    requires CleanRun(c, s, steps) && Returns(Exec(c, s, steps), id)
    ensures Knows(c, Exec(c, s, steps).tasks[id])
  {
    hide Exec, Knows, Key, Complete, Marked;
    InitialIsSafe(c, s);
    SafeRun(c, s, steps);
    var s' := Exec(c, s, steps);
    assert TaskSafe(c, s'.targets.Keys, s'.tasks[id], TempOf(s', id));
  }

  /** An object read for an entry of a published revision passes the size and hash check exactly when
      it is that revision's file. */
  lemma OnlyTheRevisionsBytesPass(c: Codec, dir: ModelDir, m: ModelManifest, i: nat, got: Bytes)
    requires CollisionFree(c) && Publishable(c, dir, m) && i < |m.files|
    ensures m.files[i].path in dir.files
    ensures |got| == m.files[i].size && c.sha256(got) == m.files[i].sha256 <==> got == dir.files[m.files[i].path]
  {
    hide LoadManifest, TypesAllowed, NothingUnlisted;
    assert Matches(c, dir.files, m.files[i]);
  }
}
