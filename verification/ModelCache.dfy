/**
 The verified model cache: resolving a published revision into a directory that is filled in
 private, checked, marked and renamed into place under a lock.  Any number of resolvers
 interleave at every file-system step, any of them may crash between two steps, and something
 outside may rewrite directories.
 */
module ModelCache {
  import opened EngineBase
  import opened ArtifactPath
  import opened Manifest
  import opened Sequences

  /******* Cache keys and completion markers *******/

  datatype Source = Source(bucket: string, prefix: string)

  function Identity(source: Source, digest: Digest): string {
    source.bucket + "/" + source.prefix + "/" + digest
  }

  function CacheKey(c: Codec, source: Source, digest: Digest): Digest {
    c.sha256(c.encode(Identity(source, digest)))
  }

  function Marker(c: Codec, digest: Digest): Bytes {
    c.encode(digest + "\n")
  }

  predicate MarkerMatches(c: Codec, files: map<string, Bytes>, digest: Digest) {
    && MARKER_NAME in files
    && var text := c.decode(files[MARKER_NAME]);
       text.Some? && Strip(text.value) == digest
  }

  lemma MarkerReadsBack(c: Codec, files: map<string, Bytes>, digest: Digest)
    requires Faithful(c) && IsHex(digest) && MARKER_NAME in files && files[MARKER_NAME] == Marker(c, digest)
    ensures MarkerMatches(c, files, digest)
    ensures forall d :: MarkerMatches(c, files, d) ==> d == digest
  {
    var text := digest + "\n";
    assert c.decode(c.encode(text)) == Some(text);
    assert !IsSpace(text[0]);
    assert text[..|text| - 1] == digest && !IsSpace(digest[|digest| - 1]);
    assert StripRight(text) == digest;
  }

  lemma IdentityEndsInDigest(a: Source, d: Digest, b: Source, e: Digest)
    requires IsHex(d) && IsHex(e) && Identity(a, d) == Identity(b, e)
    ensures d == e && a.bucket + "/" + a.prefix == b.bucket + "/" + b.prefix
  {
    var x, y := a.bucket + "/" + a.prefix, b.bucket + "/" + b.prefix;
    assert Identity(a, d) == x + "/" + d && Identity(b, e) == y + "/" + e;
    LastSlash(x, d, y, e);
  }

  lemma SlashThenHex(x: string, d: string)
    requires IsHex(d)
    ensures (x + "/" + d)[|x|] == '/'
    ensures forall i | |x| < i < |x + "/" + d| :: (x + "/" + d)[i] != '/'
    ensures (x + "/" + d)[..|x|] == x && (x + "/" + d)[|x| + 1..] == d
  {
    var s := x + "/" + d;
    assert forall i | |x| < i < |s| :: s[i] == d[i - |x| - 1];
  }

  lemma LastSlash(x: string, d: string, y: string, e: string)
    requires IsHex(d) && IsHex(e) && x + "/" + d == y + "/" + e
    ensures x == y && d == e
  {
    SlashThenHex(x, d);
    SlashThenHex(y, e);
  }

  /** Two revisions share a cache directory only if they are the same manifest at the same place. */
  lemma CacheKeyIsInjective(c: Codec, a: Source, m: ModelManifest, b: Source, n: ModelManifest)
    requires Faithful(c) && CollisionFree(c) && HexDigests(c)
    requires '/' !in a.bucket && '/' !in b.bucket
    requires CacheKey(c, a, ManifestDigest(c, m)) == CacheKey(c, b, ManifestDigest(c, n))
    ensures a == b && m == n
  {
    SameKeySameManifest(c, a, m, b, n);
    IdentityEndsInDigest(a, ManifestDigest(c, m), b, ManifestDigest(c, n));
    var s, t := a.bucket + "/" + a.prefix, b.bucket + "/" + b.prefix;
    assert s[|a.bucket|] == '/' && forall i | 0 <= i < |a.bucket| :: s[i] == a.bucket[i] && s[i] != '/';
    assert t[|b.bucket|] == '/' && forall i | 0 <= i < |b.bucket| :: t[i] == b.bucket[i] && t[i] != '/';
    assert |a.bucket| == |b.bucket|;
    assert s[..|a.bucket|] == a.bucket && t[..|a.bucket|] == b.bucket;
    assert s[|a.bucket| + 1..] == a.prefix && t[|a.bucket| + 1..] == b.prefix;
  }

  lemma SameKeySameManifest(c: Codec, a: Source, m: ModelManifest, b: Source, n: ModelManifest)
    requires Faithful(c) && CollisionFree(c) && HexDigests(c)
    requires CacheKey(c, a, ManifestDigest(c, m)) == CacheKey(c, b, ManifestDigest(c, n))
    ensures m == n
  {
    var s, t := Identity(a, ManifestDigest(c, m)), Identity(b, ManifestDigest(c, n));
    assert c.decode(c.encode(s)) == Some(s) && c.decode(c.encode(t)) == Some(t);
    IdentityEndsInDigest(a, ManifestDigest(c, m), b, ManifestDigest(c, n));
  }

  /******* States *******/

  type TaskId = nat

  datatype Node = Directory(dir: ModelDir) | NonDirectory

  datatype Phase =
    | Ready
    | Fetched          // manifest read; waiting for the lock
    | Inspecting       // lock held; about to look at the marker
    | Revalidating     // marker matched
    | Purging          // removing an unusable target
    | Creating         // no target; about to make a temporary directory
    | Seeding          // about to write the manifest there
    | Filling(next: nat)
    | Receiving(next: nat, got: Bytes)
    | Checking         // every object stored; about to validate
    | Marking
    | Publishing       // marked; about to rename
    | Cleaning         // an error was raised; about to remove the temporary directory
    | Returned
    | Failed
    | Crashed

  /** One call of resolve: its settings, the manifest it read, and the directory it last validated. */
  datatype Task = Task(source: Source, strict: bool, phase: Phase, raw: Bytes, m: ModelManifest, seen: ModelDir)

  /** populated counts the renames onto each key, purges the removals of anything from a target. */
  datatype State = State(
    targets: map<Digest, Node>,
    temps: map<TaskId, ModelDir>,
    locks: map<Digest, TaskId>,
    tasks: map<TaskId, Task>,
    populated: map<Digest, nat>,
    purges: nat)

  datatype Action =
    | ReadManifest(raw: Bytes)
    | Acquire | Inspect | Revalidate | PurgeFile(path: string) | PurgeRest
    | MakeTemp | SeedManifest | OpenObject | Receive(chunk: Bytes) | EndObject | EndFiles
    | Check | Mark | Publish | Clean
    | Raise            // any error, raised wherever id stands
    | Crash
    | CorruptTarget(key: Digest, node: Option<Node>)
    | CorruptTemp(dir: ModelDir)

  function Key(c: Codec, t: Task): Digest {
    CacheKey(c, t.source, ManifestDigest(c, t.m))
  }

  predicate HoldsLock(p: Phase) {
    !(p.Ready? || p.Fetched? || p.Returned? || p.Failed? || p.Crashed?)
  }

  predicate OwnsTemp(p: Phase) {
    p.Seeding? || p.Filling? || p.Receiving? || p.Checking? || p.Marking? || p.Publishing? || p.Cleaning?
  }

  predicate Over(p: Phase) {
    p.Returned? || p.Failed? || p.Crashed?
  }

  function Drop<K, V>(m: map<K, V>, k: K): map<K, V> {
    map j | j in m && j != k :: m[j]
  }

  function Goto(s: State, id: TaskId, t: Task, p: Phase): State {
    s.(tasks := s.tasks[id := t.(phase := p)])
  }

  /** Leave the lock's scope. */
  function Leave(c: Codec, s: State, id: TaskId, t: Task, p: Phase): State {
    Goto(s.(locks := Drop(s.locks, Key(c, t))), id, t, p)
  }

  function SetTemp(s: State, id: TaskId, dir: ModelDir): State {
    s.(temps := s.temps[id := dir])
  }

  function Put(dir: ModelDir, path: string, content: Bytes): ModelDir {
    dir.(files := dir.files[path := content])
  }

  /** validate_model_directory returns. */
  predicate Valid(c: Codec, dir: ModelDir, strict: bool) {
    var m := LoadManifest(c, dir);
    m.Some? && ValidAgainst(c, dir, m.value, strict)
  }

  /******* One step *******/

  function ApplyInspect(c: Codec, s: State, id: TaskId, t: Task): State {
    var key := Key(c, t);
    if key !in s.targets then Goto(s, id, t, Creating)
    else match s.targets[key]
      case NonDirectory => Goto(s, id, t, Purging)
      case Directory(dir) =>
        if MarkerMatches(c, dir.files, ManifestDigest(c, t.m)) then Goto(s, id, t, Revalidating)
        else Goto(s, id, t, Purging)
  }

  function ApplyRevalidate(c: Codec, s: State, id: TaskId, t: Task): State {
    var key := Key(c, t);
    if key in s.targets && s.targets[key].Directory? && Valid(c, s.targets[key].dir, t.strict)
    then Leave(c, s, id, t.(seen := s.targets[key].dir), Returned)
    else Goto(s, id, t, Purging)
  }

  /** Removal is file by file; a crash in between leaves the rest. */
  function ApplyPurgeFile(c: Codec, s: State, t: Task, path: string): State {
    var key := Key(c, t);
    if key in s.targets && s.targets[key].Directory? then
      var dir := s.targets[key].dir;
      s.(targets := s.targets[key := Directory(dir.(files := Drop(dir.files, path)))], purges := s.purges + 1)
    else s
  }

  function ApplyPurgeRest(c: Codec, s: State, id: TaskId, t: Task): State {
    Goto(s.(targets := Drop(s.targets, Key(c, t)), purges := s.purges + 1), id, t, Creating)
  }

  /** Exclusive creation: an existing file of that name is an error. */
  function ApplyOpen(s: State, id: TaskId, t: Task, next: nat): State
    requires id in s.temps && next < |t.m.files|
  {
    var path := t.m.files[next].path;
    if path in s.temps[id].files then Goto(s, id, t, Cleaning)
    else Goto(SetTemp(s, id, Put(s.temps[id], path, [])), id, t, Receiving(next, []))
  }

  function ApplyReceive(s: State, id: TaskId, t: Task, next: nat, got: Bytes, chunk: Bytes): State
    requires id in s.temps && next < |t.m.files|
  {
    var e := t.m.files[next];
    if |got| + |chunk| > e.size then Goto(s, id, t, Cleaning)
    else
      var dir := s.temps[id];
      var stored := if e.path in dir.files then dir.files[e.path] else [];
      Goto(SetTemp(s, id, Put(dir, e.path, stored + chunk)), id, t, Receiving(next, got + chunk))
  }

  function ApplyEndObject(c: Codec, s: State, id: TaskId, t: Task, next: nat, got: Bytes): State
    requires next < |t.m.files|
  {
    var e := t.m.files[next];
    if |got| != e.size || c.sha256(got) != e.sha256 then Goto(s, id, t, Cleaning)
    else Goto(s, id, t, Filling(next + 1))
  }

  /** A rename replaces nothing but an absent or empty directory. */
  function ApplyPublish(c: Codec, s: State, id: TaskId, t: Task): State
    requires id in s.temps
  {
    var key := Key(c, t);
    if key in s.targets && s.targets[key] != Directory(ModelDir(map[], {})) then Goto(s, id, t, Cleaning)
    else
      var count := if key in s.populated then s.populated[key] else 0;
      Leave(c, s.(targets := s.targets[key := Directory(s.temps[id])],
                  temps := Drop(s.temps, id),
                  populated := s.populated[key := count + 1]), id, t, Returned)
  }

  function ApplyRaise(c: Codec, s: State, id: TaskId, t: Task): State {
    if Over(t.phase) then s
    else if OwnsTemp(t.phase) then Goto(s, id, t, Cleaning)
    else if HoldsLock(t.phase) then Leave(c, s, id, t, Failed)
    else Goto(s, id, t, Failed)
  }

  function ApplyRead(c: Codec, s: State, id: TaskId, t: Task, raw: Bytes): State {
    match FromBytes(c, raw)
    case None => Goto(s, id, t, Failed)
    case Some(m) => Goto(s, id, t.(raw := raw, m := m), Fetched)
  }

  function ApplyCrash(c: Codec, s: State, id: TaskId, t: Task): State {
    if Over(t.phase) then s
    else if HoldsLock(t.phase) then Leave(c, s, id, t, Crashed)
    else Goto(s, id, t, Crashed)
  }

  function ApplyAcquire(c: Codec, s: State, id: TaskId, t: Task): State {
    if Key(c, t) in s.locks then s
    else Goto(s.(locks := s.locks[Key(c, t) := id]), id, t, Inspecting)
  }

  /** A task's own step, where no temporary directory is involved yet. */
  function ApplyOutside(c: Codec, s: State, id: TaskId, t: Task, a: Action): State {
    if a.Crash? then ApplyCrash(c, s, id, t)
    else if a.Raise? then ApplyRaise(c, s, id, t)
    else if t.phase.Ready? && a.ReadManifest? then ApplyRead(c, s, id, t, a.raw)
    else if t.phase.Fetched? && a.Acquire? then ApplyAcquire(c, s, id, t)
    else if t.phase.Inspecting? && a.Inspect? then ApplyInspect(c, s, id, t)
    else if t.phase.Revalidating? && a.Revalidate? then ApplyRevalidate(c, s, id, t)
    else if t.phase.Purging? && a.PurgeFile? then ApplyPurgeFile(c, s, t, a.path)
    else if t.phase.Purging? && a.PurgeRest? then ApplyPurgeRest(c, s, id, t)
    else if t.phase.Creating? && a.MakeTemp? then Goto(SetTemp(s, id, ModelDir(map[], {})), id, t, Seeding)
    else s
  }

  /** A task's own step in its temporary directory. */
  function ApplyInside(c: Codec, s: State, id: TaskId, t: Task, a: Action): State
    requires id in s.temps
  {
    if t.phase.Seeding? && a.SeedManifest? then
      Goto(SetTemp(s, id, Put(s.temps[id], MANIFEST_NAME, t.raw)), id, t, Filling(0))
    else if t.phase.Filling? && a.OpenObject? && t.phase.next < |t.m.files| then ApplyOpen(s, id, t, t.phase.next)
    else if t.phase.Filling? && a.EndFiles? && t.phase.next == |t.m.files| then Goto(s, id, t, Checking)
    else if t.phase.Receiving? && a.Receive? && t.phase.next < |t.m.files| then
      ApplyReceive(s, id, t, t.phase.next, t.phase.got, a.chunk)
    else if t.phase.Receiving? && a.EndObject? && t.phase.next < |t.m.files| then
      ApplyEndObject(c, s, id, t, t.phase.next, t.phase.got)
    else if t.phase.Checking? && a.Check? then
      if Valid(c, s.temps[id], t.strict) then Goto(s, id, t.(seen := s.temps[id]), Marking)
      else Goto(s, id, t, Cleaning)
    else if t.phase.Marking? && a.Mark? then
      Goto(SetTemp(s, id, Put(s.temps[id], MARKER_NAME, Marker(c, ManifestDigest(c, t.m)))), id, t, Publishing)
    else if t.phase.Publishing? && a.Publish? then ApplyPublish(c, s, id, t)
    else if t.phase.Cleaning? && a.Clean? then Leave(c, s.(temps := Drop(s.temps, id)), id, t, Failed)
    else s
  }

  predicate InsideAction(a: Action) {
    a.SeedManifest? || a.OpenObject? || a.EndFiles? || a.Receive? || a.EndObject? || a.Check? || a.Mark? || a.Publish? || a.Clean?
  }

  predicate Corrupts(a: Action) {
    a.CorruptTarget? || a.CorruptTemp?
  }

  /** Something outside rewrites or removes a target, or rewrites a temporary directory. */
  function ApplyCorruption(s: State, id: TaskId, a: Action): State
    requires Corrupts(a)
  {
    match a
    case CorruptTarget(key, None) => s.(targets := Drop(s.targets, key))
    case CorruptTarget(key, Some(node)) => s.(targets := s.targets[key := node])
    case CorruptTemp(dir) => if id in s.temps then SetTemp(s, id, dir) else s
  }

  /** One step of task id; an action that does not fit where it stands changes nothing. */
  function Apply(c: Codec, s: State, id: TaskId, a: Action): State {
    if Corrupts(a) then ApplyCorruption(s, id, a)
    else if id !in s.tasks then s
    else if !InsideAction(a) then ApplyOutside(c, s, id, s.tasks[id], a)
    else if id in s.temps then ApplyInside(c, s, id, s.tasks[id], a)
    else s
  }

  type Step = (TaskId, Action)

  function Exec(c: Codec, s: State, steps: seq<Step>): State
    decreases |steps|
  {
    if steps == [] then s else Exec(c, Apply(c, s, steps[0].0, steps[0].1), steps[1..])
  }

  /** An empty cache and any number of calls about to start. */
  predicate Initial(s: State) {
    && s.targets == map[] && s.temps == map[] && s.locks == map[] && s.populated == map[] && s.purges == 0
    && forall id | id in s.tasks :: s.tasks[id].phase == Ready
  }
}
