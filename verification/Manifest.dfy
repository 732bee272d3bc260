/**
 Model manifests and model directories: what a manifest must contain, how one is built from a
 directory, and what validating a directory against its manifest means.
 */
module Manifest {
  import opened EngineBase
  import opened ArtifactPath
  import opened Sequences

  newtype Byte = x: int | 0 <= x < 256
  type Bytes = seq<Byte>
  type Digest = string

  datatype Format = Safetensors | Gguf

  datatype Entry = Entry(path: string, size: nat, sha256: Digest)

  datatype ModelManifest = ModelManifest(modelId: string, revision: string, format: Format, files: seq<Entry>)

  const MANIFEST_NAME := "model-manifest.json"
  const MARKER_NAME := ".complete"
  const MAX_MANIFEST_BYTES := 4 * 1024 * 1024

  /** The libraries the code calls: hashing, text encoding, and manifests as JSON. */
  datatype Codec = Codec(
    sha256: Bytes -> Digest,
    encode: string -> Bytes,
    decode: Bytes -> Option<string>,
    parse: Bytes -> Option<ModelManifest>,
    print_: ModelManifest -> Bytes,
    canonical: ModelManifest -> Bytes)

  /** Parsing undoes printing, and decoding undoes encoding. */
  ghost predicate Faithful(c: Codec) {
    && (forall m :: c.parse(c.print_(m)) == Some(m))
    && (forall s :: c.decode(c.encode(s)) == Some(s))
  }

  /** No two byte strings share a digest, and no two manifests a canonical form. */
  ghost predicate CollisionFree(c: Codec) {
    && (forall a, b :: c.sha256(a) == c.sha256(b) ==> a == b)
    && (forall m, n :: c.canonical(m) == c.canonical(n) ==> m == n)
  }

  /** Digests are written in hexadecimal. */
  ghost predicate HexDigests(c: Codec) {
    forall b :: IsHex(c.sha256(b))
  }

  predicate IsHex(s: string) {
    s != "" && forall i | 0 <= i < |s| :: '0' <= s[i] <= '9' || 'a' <= s[i] <= 'f'
  }

  /******* Manifests *******/

  function Paths(files: seq<Entry>): seq<string> {
    seq(|files|, i requires 0 <= i < |files| => files[i].path)
  }

  predicate Unique(paths: seq<string>) {
    forall i, j | 0 <= i < j < |paths| :: paths[i] != paths[j]
  }

  function Ending(paths: seq<string>, suffix: string): seq<string> {
    if paths == [] then []
    else (if EndsWith(paths[0], suffix) then [paths[0]] else []) + Ending(paths[1..], suffix)
  }

  predicate FormatRules(format: Format, paths: seq<string>) {
    var safetensors, gguf := Ending(paths, ".safetensors"), Ending(paths, ".gguf");
    match format
    case Safetensors =>
      && "config.json" in paths && safetensors != []
      && (exists path | path in paths :: "tokenizer" <= path)
      && gguf == []
    case Gguf => |gguf| == 1 && safetensors == []
  }

  predicate WellFormed(m: ModelManifest) {
    && m.files != []
    && (forall e | e in m.files :: ValidateRelativeArtifactPath(e.path).Accepted?)
    && Unique(Paths(m.files))
    && FormatRules(m.format, Paths(m.files))
  }

  function FromBytes(c: Codec, raw: Bytes): Option<ModelManifest> {
    if |raw| > MAX_MANIFEST_BYTES then None
    else match c.parse(raw)
      case None => None
      case Some(m) => if WellFormed(m) then Some(m) else None
  }

  function ManifestDigest(c: Codec, m: ModelManifest): Digest {
    c.sha256(c.canonical(m))
  }

  /******* Directories *******/

  /** The regular files below a directory, by relative path, and the symbolic links there. */
  datatype ModelDir = ModelDir(files: map<string, Bytes>, symlinks: set<string>)

  /** What stands where a model directory is looked for. */
  datatype Root = Absent | NotDirectory | LinkedRoot | Plain(dir: ModelDir)

  predicate IsArtifact(path: string) {
    BaseName(path) != MANIFEST_NAME && BaseName(path) != MARKER_NAME
  }

  function LowerSuffix(path: string): string {
    Lower(NameSuffix(BaseName(path)))
  }

  function ForeignSuffix(format: Format): string {
    match format case Safetensors => ".gguf" case Gguf => ".safetensors"
  }

  predicate TypeAllowed(format: Format, path: string) {
    LowerSuffix(path) !in UNSAFE_SUFFIXES && LowerSuffix(path) != ForeignSuffix(format)
  }

  predicate Matches(c: Codec, files: map<string, Bytes>, e: Entry) {
    e.path in files && |files[e.path]| == e.size && c.sha256(files[e.path]) == e.sha256
  }

  function LoadManifest(c: Codec, dir: ModelDir): Option<ModelManifest> {
    if MANIFEST_NAME in dir.files then FromBytes(c, dir.files[MANIFEST_NAME]) else None
  }

  /** What validation establishes, in terms of the manifest m on disk. */
  predicate ValidAgainst(c: Codec, dir: ModelDir, m: ModelManifest, strict: bool) {
    && dir.symlinks == {}
    && LoadManifest(c, dir) == Some(m)
    && TypesAllowed(m.format, dir.files)
    && EntriesMatch(c, dir.files, m.files)
    && (strict ==> NothingUnlisted(dir.files, Paths(m.files)))
  }

  predicate TypesAllowed(format: Format, files: map<string, Bytes>) {
    forall path | path in files && IsArtifact(path) :: TypeAllowed(format, path)
  }

  predicate EntriesMatch(c: Codec, files: map<string, Bytes>, entries: seq<Entry>) {
    forall i | 0 <= i < |entries| :: Matches(c, files, entries[i])
  }

  predicate NothingUnlisted(files: map<string, Bytes>, paths: seq<string>) {
    forall path | path in files && IsArtifact(path) :: path in paths
  }

  datatype Summary = Summary(manifest: ModelManifest, totalBytes: nat, fileCount: nat)

  function TotalSize(files: seq<Entry>): nat {
    if files == [] then 0 else TotalSize(files[..|files| - 1]) + files[|files| - 1].size
  }

  /** A directory walk: every regular file, once, in some order. */
  ghost predicate Lists(listing: seq<string>, files: map<string, Bytes>) {
    Unique(listing) && forall path :: path in listing <==> path in files
  }

  method CheckTypes(format: Format, files: map<string, Bytes>, listing: seq<string>) returns (ok: bool)
    requires Lists(listing, files)
    ensures ok <==> TypesAllowed(format, files)
  {
    hide IsArtifact, TypeAllowed;
    for i := 0 to |listing|
      invariant forall j | 0 <= j < i && IsArtifact(listing[j]) :: TypeAllowed(format, listing[j])
    {
      if IsArtifact(listing[i]) && !TypeAllowed(format, listing[i]) {
        assert listing[i] in listing;
        return false;
      }
    }
    forall path | path in files && IsArtifact(path) ensures TypeAllowed(format, path) {
      assert path in listing;
    }
    return true;
  }

  method CheckEntries(c: Codec, files: map<string, Bytes>, entries: seq<Entry>) returns (ok: bool, total: nat)
    ensures ok <==> EntriesMatch(c, files, entries)
    ensures ok ==> total == TotalSize(entries)
  {
    total := 0;
    for i := 0 to |entries|
      invariant EntriesMatch(c, files, entries[..i])
      invariant total == TotalSize(entries[..i])
    {
      var e := entries[i];
      if e.path !in files || |files[e.path]| != e.size || c.sha256(files[e.path]) != e.sha256 {
        assert !Matches(c, files, e);
        return false, total;
      }
      total := total + |files[e.path]|;
      assert entries[..i + 1][..i] == entries[..i];
    }
    assert entries[..|entries|] == entries;
    return true, total;
  }

  method CheckUnlisted(files: map<string, Bytes>, listing: seq<string>, paths: seq<string>) returns (ok: bool)
    requires Lists(listing, files)
    ensures ok <==> NothingUnlisted(files, paths)
  {
    hide IsArtifact;
    for i := 0 to |listing|
      invariant forall j | 0 <= j < i && IsArtifact(listing[j]) :: listing[j] in paths
    {
      if IsArtifact(listing[i]) && listing[i] !in paths {
        assert listing[i] in listing;
        return false;
      }
    }
    forall path | path in files && IsArtifact(path) ensures path in paths {
      assert path in listing;
    }
    return true;
  }

  /** Validation as the service runs it; None stands for any raised error. */
  method ValidateModelDirectory(c: Codec, root: Root, listing: seq<string>, strict: bool)
    returns (r: Option<Summary>)
    requires root.Plain? ==> Lists(listing, root.dir.files)
    ensures r.Some? <==> root.Plain? && exists m :: ValidAgainst(c, root.dir, m, strict)
    ensures r.Some? ==> ValidAgainst(c, root.dir, r.value.manifest, strict)
    ensures r.Some? ==> r == Some(Summary(r.value.manifest, TotalSize(r.value.manifest.files), |r.value.manifest.files|))
  {
    if !root.Plain? {
      return None;
    }
    var dir := root.dir;
    if dir.symlinks != {} {
      return None;
    }
    var manifest := LoadManifest(c, dir);
    if manifest.None? {
      return None;
    }
    var m := manifest.value;
    var ok := CheckTypes(m.format, dir.files, listing);
    if !ok {
      return None;
    }
    var total;
    ok, total := CheckEntries(c, dir.files, m.files);
    if !ok {
      return None;
    }
    if strict {
      ok := CheckUnlisted(dir.files, listing, Paths(m.files));
      if !ok {
        return None;
      }
    }
    assert ValidAgainst(c, dir, m, strict);
    return Some(Summary(m, total, |m.files|));
  }

  lemma ManifestNameIsRootManifest()
    ensures BaseName(MANIFEST_NAME) == MANIFEST_NAME
  {
    SplitOne(MANIFEST_NAME, '/');
  }

  lemma OnlyLeadingDotHasNoSuffix(name: string)
    requires name != "" && name[0] == '.' && forall i | 0 < i < |name| :: name[i] != '.'
    ensures NameSuffix(name) == ""
  {
  }

  /** A completion marker is never an acceptable artifact: its name has no suffix. */
  lemma MarkerIsNotAccepted(path: string)
    requires BaseName(path) == MARKER_NAME
    ensures !ValidateRelativeArtifactPath(path).Accepted?
  {
    assert NameSuffix(BaseName(path)) == "" by {
      OnlyLeadingDotHasNoSuffix(MARKER_NAME);
    }
    assert !Acceptable(path) by {
      assert Lower("") == "";
    }
    AcceptsExactly(path);
  }

  /** Two directories that validate strictly against one manifest hold the same artifacts. */
  lemma StrictValidationIsDeterminate(c: Codec, a: ModelDir, b: ModelDir, m: ModelManifest, path: string)
    requires CollisionFree(c) && ValidAgainst(c, a, m, true) && ValidAgainst(c, b, m, true)
    requires IsArtifact(path)
    ensures path in a.files <==> path in b.files
    ensures path in a.files ==> a.files[path] == b.files[path]
  {
    if path in a.files || path in b.files {
      assert path in Paths(m.files);
      var i :| 0 <= i < |m.files| && Paths(m.files)[i] == path;
      assert Matches(c, a.files, m.files[i]) && Matches(c, b.files, m.files[i]);
    }
  }
}
