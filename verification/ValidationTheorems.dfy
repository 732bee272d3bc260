/**
 What validating a directory against a manifest is worth: the format's rules as statements about paths, and what
 can and cannot be done to a valid directory unnoticed.
 */
module ValidationTheorems {
  import opened ArtifactPath
  import opened EngineBase
  import opened Manifest
  import opened Sequences

  /******* The format's rules *******/

  ghost predicate SomeEndsWith(paths: seq<string>, suffix: string) {
    exists i :: 0 <= i < |paths| && EndsWith(paths[i], suffix)
  }

  ghost predicate OneEndsWith(paths: seq<string>, suffix: string) {
    exists i :: 0 <= i < |paths| && OnlyEndsWith(paths, suffix, i)
  }

  ghost predicate OnlyEndsWith(paths: seq<string>, suffix: string, i: nat)
    requires i < |paths|
  {
    EndsWith(paths[i], suffix) && forall j :: 0 <= j < |paths| && EndsWith(paths[j], suffix) ==> j == i
  }

  lemma {:induction false} EndingsCounted(paths: seq<string>, suffix: string)
    ensures Ending(paths, suffix) == [] <==> !SomeEndsWith(paths, suffix)
    ensures |Ending(paths, suffix)| == 1 <==> OneEndsWith(paths, suffix)
  {
    if paths != [] {
      var rest := paths[1..];
      EndingsCounted(rest, suffix);
      assert forall j :: 0 <= j < |rest| ==> rest[j] == paths[j + 1];
      assert forall j :: 0 < j < |paths| ==> paths[j] == rest[j - 1];
      FirstEnding(paths, suffix);
    }
  }

  lemma FirstEnding(paths: seq<string>, suffix: string)
    requires paths != []
    ensures SomeEndsWith(paths, suffix) <==> EndsWith(paths[0], suffix) || SomeEndsWith(paths[1..], suffix)
    ensures OneEndsWith(paths, suffix) <==>
              if EndsWith(paths[0], suffix) then !SomeEndsWith(paths[1..], suffix) else OneEndsWith(paths[1..], suffix)
  {
    hide EndsWith;
    var rest := paths[1..];
    assert forall j :: 0 <= j < |rest| ==> rest[j] == paths[j + 1];
    assert forall j :: 0 < j < |paths| ==> paths[j] == rest[j - 1];
    if EndsWith(paths[0], suffix) && !SomeEndsWith(rest, suffix) {
      assert OnlyEndsWith(paths, suffix, 0);
    }
    if i :| 0 <= i < |rest| && OnlyEndsWith(rest, suffix, i) {
      assert !EndsWith(paths[0], suffix) ==> OnlyEndsWith(paths, suffix, i + 1);
    }
    if i :| 0 <= i < |paths| && OnlyEndsWith(paths, suffix, i) {
      assert i > 0 ==> OnlyEndsWith(rest, suffix, i - 1);
    }
  }

  ghost predicate SomeBegins(paths: seq<string>, prefix: string) {
    exists i :: 0 <= i < |paths| && prefix <= paths[i]
  }

  lemma BeginsByIndex(paths: seq<string>, prefix: string)
    ensures (exists path | path in paths :: prefix <= path) <==> SomeBegins(paths, prefix)
  {
    if path :| path in paths && prefix <= path {
      var i :| 0 <= i < |paths| && paths[i] == path;
      assert prefix <= paths[i];
    }
    if i :| 0 <= i < |paths| && prefix <= paths[i] {
      assert paths[i] in paths;
    }
  }

  /** A safetensors manifest lists config.json, weights, a tokenizer file and no GGUF; a GGUF manifest lists
      exactly one GGUF and no safetensors. */
  lemma FormatRulesExactly(format: Format, paths: seq<string>)
    ensures FormatRules(format, paths) <==>
            match format
            case Safetensors =>
              && "config.json" in paths && SomeBegins(paths, "tokenizer")
              && SomeEndsWith(paths, ".safetensors") && !SomeEndsWith(paths, ".gguf")
            case Gguf => OneEndsWith(paths, ".gguf") && !SomeEndsWith(paths, ".safetensors")
  {
    EndingsCounted(paths, ".gguf");
    EndingsCounted(paths, ".safetensors");
    BeginsByIndex(paths, "tokenizer");
    hide Ending, SomeEndsWith, OneEndsWith, SomeBegins;
  }

  /** The total is additive, one entry counting its size. */
  lemma {:induction false} TotalSizeAdds(a: seq<Entry>, b: seq<Entry>)
    ensures TotalSize(a + b) == TotalSize(a) + TotalSize(b)
    ensures |b| == 1 ==> TotalSize(b) == b[0].size
  {
    if b == [] {
      assert a + b == a;
    } else {
      var init := b[..|b| - 1];
      TotalSizeAdds(a, init);
      assert (a + b)[..|a + b| - 1] == a + init;
    }
  }

  /******* A valid directory, changed *******/

  function With(dir: ModelDir, path: string, content: Bytes): ModelDir {
    dir.(files := dir.files[path := content])
  }

  /** No checkpoint or code, and no weights of the other format, judged by the lower-cased suffix. */
  predicate Harmless(format: Format, path: string) {
    var suffix := Lower(NameSuffix(BaseName(path)));
    && suffix !in {".bin", ".ckpt", ".pkl", ".pickle", ".pt", ".pth", ".py"}
    && suffix != if format.Gguf? then ".safetensors" else ".gguf"
  }

  lemma HarmlessIsAllowed(format: Format, path: string)
    ensures TypeAllowed(format, path) <==> Harmless(format, path)
  {
  }

  lemma EntryFiles(c: Codec, dir: ModelDir, m: ModelManifest, path: string)
    requires EntriesMatch(c, dir.files, m.files) && path in Paths(m.files)
    ensures path in dir.files
  {
    var i :| 0 <= i < |m.files| && Paths(m.files)[i] == path;
    assert Matches(c, dir.files, m.files[i]);
  }

  lemma StillMatches(c: Codec, dir: ModelDir, m: ModelManifest, path: string, content: Bytes)
    requires EntriesMatch(c, dir.files, m.files) && path !in Paths(m.files)
    ensures EntriesMatch(c, With(dir, path, content).files, m.files)
  {
    forall i | 0 <= i < |m.files| ensures Matches(c, With(dir, path, content).files, m.files[i]) {
      assert Matches(c, dir.files, m.files[i]) && Paths(m.files)[i] == m.files[i].path;
    }
  }

  /** A file added to a valid directory goes unnoticed exactly when it is named as a manifest or marker somewhere,
      or validation is not strict and the file is harmless. */
  lemma AddingAFile(c: Codec, dir: ModelDir, m: ModelManifest, strict: bool, path: string, content: Bytes)
    requires ValidAgainst(c, dir, m, strict) && path !in dir.files
    ensures ValidAgainst(c, With(dir, path, content), m, strict) <==>
              BaseName(path) in {"model-manifest.json", ".complete"} || (!strict && Harmless(m.format, path))
  {
    hide FromBytes, BaseName, Matches, TypeAllowed, Harmless;
    var now := With(dir, path, content);
    if path in Paths(m.files) {
      EntryFiles(c, dir, m, path);
    }
    StillMatches(c, dir, m, path, content);
    HarmlessIsAllowed(m.format, path);
    assert LoadManifest(c, now) == Some(m);
    assert TypesAllowed(m.format, now.files) <==> (IsArtifact(path) ==> Harmless(m.format, path));
    assert strict ==> (NothingUnlisted(now.files, Paths(m.files)) <==> !IsArtifact(path));
  }

  /** A listed file other than the manifest can only be replaced by its own bytes. */
  lemma ReplacingAnArtifact(c: Codec, dir: ModelDir, m: ModelManifest, strict: bool, i: nat, content: Bytes)
    requires CollisionFree(c) && ValidAgainst(c, dir, m, strict)
    requires i < |m.files| && m.files[i].path != MANIFEST_NAME
    ensures m.files[i].path in dir.files
    ensures ValidAgainst(c, With(dir, m.files[i].path, content), m, strict) <==> content == dir.files[m.files[i].path]
  {
    hide FromBytes, TypesAllowed, NothingUnlisted;
    var path := m.files[i].path;
    assert Matches(c, dir.files, m.files[i]);
    var now := With(dir, path, content);
    if content == dir.files[path] {
      assert now == dir;
    } else {
      assert !Matches(c, now.files, m.files[i]);
    }
  }

  /** No listed file and no manifest can be missing, and no symbolic link be there. */
  lemma RemovingOrLinking(c: Codec, dir: ModelDir, m: ModelManifest, strict: bool)
    ensures MANIFEST_NAME !in dir.files || dir.symlinks != {} ==> !ValidAgainst(c, dir, m, strict)
    ensures (exists i :: 0 <= i < |m.files| && m.files[i].path !in dir.files) ==> !ValidAgainst(c, dir, m, strict)
  {
    hide FromBytes, TypesAllowed, NothingUnlisted;
    if i :| 0 <= i < |m.files| && m.files[i].path !in dir.files {
      assert !Matches(c, dir.files, m.files[i]);
    }
  }
}
