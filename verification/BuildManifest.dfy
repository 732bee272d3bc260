/**
 Building a manifest from a directory, and when a directory validates against the manifest just
 built from it.
 */
module BuildManifest {
  import opened EngineBase
  import opened ArtifactPath
  import opened Manifest
  import opened Sequences

  datatype Meta = Meta(modelId: string, revision: string, format: Option<Format>)

  function EntryOf(c: Codec, path: string, content: Bytes): Entry {
    Entry(path, |content|, c.sha256(content))
  }

  /** Files the builder lists: everything not named as a manifest. */
  predicate IsListed(path: string) {
    BaseName(path) != MANIFEST_NAME
  }

  predicate AllIn(listing: seq<string>, files: map<string, Bytes>) {
    forall i | 0 <= i < |listing| :: listing[i] in files
  }

  function Entries(c: Codec, files: map<string, Bytes>, listing: seq<string>): seq<Entry>
    requires AllIn(listing, files)
  {
    if listing == [] then []
    else
      var init, path := listing[..|listing| - 1], listing[|listing| - 1];
      Entries(c, files, init) + if IsListed(path) then [EntryOf(c, path, files[path])] else []
  }

  predicate AllAccepted(listing: seq<string>) {
    forall i | 0 <= i < |listing| && IsListed(listing[i]) :: ValidateRelativeArtifactPath(listing[i]).Accepted?
  }

  /** The format given, or the one the weight files imply. */
  function ChooseFormat(given: Option<Format>, paths: seq<string>): Option<Format> {
    if given.Some? then given
    else match (Ending(paths, ".gguf") != [], Ending(paths, ".safetensors") != [])
      case (true, false) => Some(Gguf)
      case (false, true) => Some(Safetensors)
      case _ => None
  }

  /** The manifest of a directory walked in the given order, if building it raises nothing. */
  function Built(c: Codec, dir: ModelDir, listing: seq<string>, meta: Meta): Option<ModelManifest>
    requires AllIn(listing, dir.files)
  {
    if dir.symlinks != {} || !AllAccepted(listing) then None
    else
      var entries := Entries(c, dir.files, listing);
      match ChooseFormat(meta.format, Paths(entries))
      case None => None
      case Some(format) =>
        var m := ModelManifest(meta.modelId, meta.revision, format, entries);
        if WellFormed(m) then Some(m) else None
  }

  lemma WalkStep(c: Codec, files: map<string, Bytes>, listing: seq<string>, i: nat)
    requires AllIn(listing, files) && i < |listing|
    ensures AllAccepted(listing[..i + 1]) <==>
            AllAccepted(listing[..i]) && (IsListed(listing[i]) ==> ValidateRelativeArtifactPath(listing[i]).Accepted?)
    ensures AllAccepted(listing) ==> AllAccepted(listing[..i + 1])
    ensures Entries(c, files, listing[..i + 1])
         == Entries(c, files, listing[..i]) + if IsListed(listing[i]) then [EntryOf(c, listing[i], files[listing[i]])] else []
  {
    var upTo := listing[..i + 1];
    assert upTo[..i] == listing[..i];
    assert forall j | 0 <= j < i :: listing[..i][j] == upTo[j];
  }

  /** The builder's walk; ok is false when a path is refused. */
  method CollectEntries(c: Codec, files: map<string, Bytes>, listing: seq<string>) returns (ok: bool, entries: seq<Entry>)
    requires AllIn(listing, files)
    ensures ok <==> AllAccepted(listing)
    ensures ok ==> entries == Entries(c, files, listing)
  {
    entries := [];
    for i := 0 to |listing|
      invariant AllAccepted(listing[..i])
      invariant AllIn(listing[..i], files)
      invariant entries == Entries(c, files, listing[..i])
    {
      var path := listing[i];
      WalkStep(c, files, listing, i);
      if IsListed(path) {
        if !ValidateRelativeArtifactPath(path).Accepted? {
          return false, entries;
        }
        entries := entries + [EntryOf(c, path, files[path])];
      }
    }
    assert listing[..|listing|] == listing;
    return true, entries;
  }

  method BuildManifest(c: Codec, dir: ModelDir, listing: seq<string>, meta: Meta) returns (r: Option<ModelManifest>)
    requires AllIn(listing, dir.files)
    ensures r == Built(c, dir, listing, meta)
  {
    if dir.symlinks != {} {
      return None;
    }
    var ok, entries := CollectEntries(c, dir.files, listing);
    if !ok {
      return None;
    }
    var format := ChooseFormat(meta.format, Paths(entries));
    if format.None? {
      return None;
    }
    var m := ModelManifest(meta.modelId, meta.revision, format.value, entries);
    return if WellFormed(m) then Some(m) else None;
  }

  /** The directory after the manifest has been written into it. */
  function WriteManifest(c: Codec, dir: ModelDir, m: ModelManifest): ModelDir {
    dir.(files := dir.files[MANIFEST_NAME := c.print_(m)])
  }

  /******* Build, write, validate *******/

  lemma {:induction false} EntriesCover(c: Codec, files: map<string, Bytes>, listing: seq<string>)
    requires AllIn(listing, files)
    ensures forall e | e in Entries(c, files, listing) ::
              e.path in listing && IsListed(e.path) && e == EntryOf(c, e.path, files[e.path])
    ensures forall path | path in listing && IsListed(path) ::
              EntryOf(c, path, files[path]) in Entries(c, files, listing)
  {
    if listing != [] {
      var init, last := listing[..|listing| - 1], listing[|listing| - 1];
      assert listing == init + [last];
      EntriesCover(c, files, init);
    }
  }

  lemma AcceptedTypeIsAllowed(path: string)
    requires ValidateRelativeArtifactPath(path).Accepted?
    ensures LowerSuffix(path) !in UNSAFE_SUFFIXES
  {
    AcceptsExactly(path);
    SuffixSetsAreDisjoint();
  }

  /** Some artifact has, up to case, the other format's weight suffix. */
  ghost predicate HasForeignWeights(format: Format, dir: ModelDir) {
    exists path :: path in dir.files && IsListed(path) && LowerSuffix(path) == ForeignSuffix(format)
  }

  lemma BuiltEntriesMatch(c: Codec, dir: ModelDir, listing: seq<string>, meta: Meta, m: ModelManifest)
    requires Lists(listing, dir.files) && Built(c, dir, listing, meta) == Some(m)
    ensures EntriesMatch(c, WriteManifest(c, dir, m).files, m.files)
  {
    ManifestNameIsRootManifest();
    EntriesCover(c, dir.files, listing);
    forall i | 0 <= i < |m.files| ensures Matches(c, WriteManifest(c, dir, m).files, m.files[i]) {
      assert m.files[i] in m.files;
    }
  }

  /** Writing the manifest leaves the artifacts as they were. */
  lemma WrittenArtifacts(c: Codec, dir: ModelDir, listing: seq<string>, meta: Meta, m: ModelManifest, path: string)
    requires Lists(listing, dir.files) && Built(c, dir, listing, meta) == Some(m)
    ensures path in WriteManifest(c, dir, m).files && IsArtifact(path) <==> path in dir.files && IsListed(path)
  {
    ManifestNameIsRootManifest();
    if path in dir.files && IsListed(path) {
      ListedFileIsEntry(c, dir, listing, meta, m, path);
    }
  }

  /** A directory validates strictly against the manifest just built from it exactly when it holds no
      file whose suffix is, up to case, the other weight format's. */
  lemma BuildThenValidate(c: Codec, dir: ModelDir, listing: seq<string>, meta: Meta, m: ModelManifest)
    requires Faithful(c) && Lists(listing, dir.files)
    requires Built(c, dir, listing, meta) == Some(m) && |c.print_(m)| <= MAX_MANIFEST_BYTES
    ensures ValidAgainst(c, WriteManifest(c, dir, m), m, true) <==> !HasForeignWeights(m.format, dir)
  {
    var files := WriteManifest(c, dir, m).files;
    assert LoadManifest(c, WriteManifest(c, dir, m)) == Some(m) by {
      assert c.parse(c.print_(m)) == Some(m);
    }
    BuiltEntriesMatch(c, dir, listing, meta, m);
    assert NothingUnlisted(files, Paths(m.files)) by {
      forall path | path in files && IsArtifact(path) ensures path in Paths(m.files) {
        WrittenArtifacts(c, dir, listing, meta, m, path);
        ListedFileIsEntry(c, dir, listing, meta, m, path);
      }
    }
    assert TypesAllowed(m.format, files) <==> !HasForeignWeights(m.format, dir) by {
      forall path
        ensures path in files && IsArtifact(path) <==> path in dir.files && IsListed(path)
        ensures path in dir.files && IsListed(path) ==> LowerSuffix(path) !in UNSAFE_SUFFIXES
      {
        WrittenArtifacts(c, dir, listing, meta, m, path);
        if path in dir.files && IsListed(path) {
          ListedFileIsEntry(c, dir, listing, meta, m, path);
        }
      }
    }
  }

  lemma ListedFileIsEntry(c: Codec, dir: ModelDir, listing: seq<string>, meta: Meta, m: ModelManifest, path: string)
    requires Lists(listing, dir.files) && Built(c, dir, listing, meta) == Some(m)
    requires path in dir.files && IsListed(path)
    ensures IsArtifact(path) && LowerSuffix(path) !in UNSAFE_SUFFIXES && path in Paths(m.files)
  {
    EntriesCover(c, dir.files, listing);
    assert path in listing;
    var i :| 0 <= i < |listing| && listing[i] == path;
    AcceptedTypeIsAllowed(path);
    if BaseName(path) == MARKER_NAME {
      MarkerIsNotAccepted(path);
    }
    var e := EntryOf(c, path, dir.files[path]);
    assert e in m.files;
    var k :| 0 <= k < |m.files| && m.files[k] == e;
    assert Paths(m.files)[k] == path;
  }

  /******* Lower-case suffixes *******/

  lemma {:induction false} BaseNameEndsPath(path: string)
    ensures EndsWith(path, BaseName(path))
  {
    if path != "" {
      BaseNameEndsPath(path[1..]);
      var rest := Split(path[1..], '/');
      var parts := Split(path, '/');
      if path[0] != '/' && |rest| == 1 {
        SplitPartsHaveNoSep(path[1..], '/');
        JoinSplit(path[1..], '/');
        assert rest[0] == path[1..];
        assert BaseName(path) == path;
      } else {
        assert parts[|parts| - 1] == rest[|rest| - 1];
        var base := BaseName(path[1..]);
        assert path[|path| - |base|..] == path[1..][|path[1..]| - |base|..];
      }
    }
  }

  lemma SuffixEndsPath(path: string)
    ensures EndsWith(path, NameSuffix(BaseName(path)))
  {
    BaseNameEndsPath(path);
    var name := BaseName(path);
    var i := LastIndexOf(name, '.');
    if 0 < i < |name| - 1 {
      assert path[|path| - (|name| - i)..] == path[|path| - |name|..][i..];
    }
  }

  lemma {:induction false} EndingHolds(paths: seq<string>, suffix: string, path: string)
    requires path in paths && EndsWith(path, suffix)
    ensures path in Ending(paths, suffix)
  {
    if path != paths[0] {
      assert path in paths[1..];
      EndingHolds(paths[1..], suffix, path);
    }
  }

  /** With lower-case suffixes, whatever builds also validates. */
  lemma LowerCaseBuildsValidate(c: Codec, dir: ModelDir, listing: seq<string>, meta: Meta, m: ModelManifest)
    requires Faithful(c) && Lists(listing, dir.files)
    requires Built(c, dir, listing, meta) == Some(m) && |c.print_(m)| <= MAX_MANIFEST_BYTES
    requires forall path | path in dir.files && IsListed(path) :: LowerSuffix(path) == NameSuffix(BaseName(path))
    ensures ValidAgainst(c, WriteManifest(c, dir, m), m, true)
  {
    BuildThenValidate(c, dir, listing, meta, m);
    if HasForeignWeights(m.format, dir) {
      var path :| path in dir.files && IsListed(path) && LowerSuffix(path) == ForeignSuffix(m.format);
      ListedFileIsEntry(c, dir, listing, meta, m, path);
      SuffixEndsPath(path);
      EndingHolds(Paths(m.files), ForeignSuffix(m.format), path);
    }
  }

  lemma PlainName(name: string, dot: nat)
    requires '/' !in name && 0 < dot < |name| - 1 && name[dot] == '.' && forall j | dot < j < |name| :: name[j] != '.'
    ensures Split(name, '/') == [name] && BaseName(name) == name && NameSuffix(name) == name[dot..]
  {
    SplitOne(name, '/');
  }

  lemma PlainNameIsAccepted(name: string, dot: nat, lowered: string)
    requires '/' !in name && 0 < dot < |name| - 1 && name[dot] == '.' && forall j | dot < j < |name| :: name[j] != '.'
    requires '\\' !in name && '\0' !in name && name[0] != '.' && Lower(name[dot..]) == lowered && lowered in ALLOWED_SUFFIXES
    ensures ValidateRelativeArtifactPath(name).Accepted? && LowerSuffix(name) == lowered
  {
    PlainName(name, dot);
    AcceptsExactly(name);
  }

  /** Two file names in one directory: GGUF weights, and weights the builder does not recognise. */
  ghost predicate Overlooked(good: string, upper: string) {
    && good != upper && IsListed(good) && IsListed(upper)
    && ValidateRelativeArtifactPath(good).Accepted? && ValidateRelativeArtifactPath(upper).Accepted?
    && EndsWith(good, ".gguf") && !EndsWith(good, ".safetensors")
    && !EndsWith(upper, ".gguf") && !EndsWith(upper, ".safetensors")
    && LowerSuffix(upper) == ".safetensors"
  }

  lemma ExampleWeights()
    ensures var good := "m.gguf";
            && ValidateRelativeArtifactPath(good).Accepted? && BaseName(good) == good
            && EndsWith(good, ".gguf") && !EndsWith(good, ".safetensors")
  {
    var good := "m.gguf";
    assert good[1..] == ".gguf";
    assert Lower(".gguf") == ".gguf";
    PlainNameIsAccepted(good, 1, ".gguf");
    PlainName(good, 1);
  }

  lemma ExampleLowers()
    ensures Lower(".SAFETENSORS") == ".safetensors"
  {
  }

  lemma ExampleOverlooked()
    ensures var upper := "m.SAFETENSORS";
            && ValidateRelativeArtifactPath(upper).Accepted? && BaseName(upper) == upper
            && LowerSuffix(upper) == ".safetensors"
  {
    var upper := "m.SAFETENSORS";
    assert upper[1..] == ".SAFETENSORS";
    ExampleLowers();
    PlainNameIsAccepted(upper, 1, ".safetensors");
    PlainName(upper, 1);
  }

  lemma EndsWithLast(s: string, suffix: string)
    requires s != "" && suffix != "" && EndsWith(s, suffix)
    ensures s[|s| - 1] == suffix[|suffix| - 1]
  {
    assert s[|s| - |suffix|..][|suffix| - 1] == s[|s| - 1];
  }

  lemma OverlookedExample()
    ensures Overlooked("m.gguf", "m.SAFETENSORS")
  {
    ExampleWeights();
    ExampleOverlooked();
    var upper := "m.SAFETENSORS";
    if EndsWith(upper, ".gguf") {
      EndsWithLast(upper, ".gguf");
    }
    if EndsWith(upper, ".safetensors") {
      EndsWithLast(upper, ".safetensors");
    }
  }

  lemma OverlookedBuilds(c: Codec, good: string, upper: string, g: Bytes, s: Bytes) returns (m: ModelManifest)
    requires Overlooked(good, upper)
    ensures Built(c, ModelDir(map[good := g, upper := s], {}), [good, upper], Meta("id", "rev", None)) == Some(m)
    ensures m.format == Gguf
  {
    hide ValidateRelativeArtifactPath, BaseName, LowerSuffix, EndsWith;
    var dir := ModelDir(map[good := g, upper := s], {});
    var entries := [EntryOf(c, good, g), EntryOf(c, upper, s)];
    TwoEntries(c, dir.files, good, upper);
    TwoPaths(entries, good, upper);
    assert Ending([good, upper], ".gguf") == [good] && Ending([good, upper], ".safetensors") == [] by {
      EndingOfTwo(good, upper, ".gguf");
      EndingOfTwo(good, upper, ".safetensors");
    }
    m := ModelManifest("id", "rev", Gguf, entries);
    assert WellFormed(m);
  }

  /** A case the builder lets through and validation refuses: GGUF weights beside m.SAFETENSORS. */
  lemma UpperCaseWeightsBuildButFail(c: Codec, g: Bytes, s: Bytes) returns (m: ModelManifest)
    ensures var dir := ModelDir(map["m.gguf" := g, "m.SAFETENSORS" := s], {});
            && Built(c, dir, ["m.gguf", "m.SAFETENSORS"], Meta("id", "rev", None)) == Some(m)
            && !ValidAgainst(c, WriteManifest(c, dir, m), m, true)
  {
    OverlookedExample();
    var good, upper := "m.gguf", "m.SAFETENSORS";
    m := OverlookedBuilds(c, good, upper, g, s);
    ForeignFileFails(c, ModelDir(map[good := g, upper := s], {}), m, upper);
  }

  lemma ForeignFileFails(c: Codec, dir: ModelDir, m: ModelManifest, path: string)
    requires path in dir.files && IsListed(path) && ValidateRelativeArtifactPath(path).Accepted?
    requires LowerSuffix(path) == ForeignSuffix(m.format)
    ensures !ValidAgainst(c, WriteManifest(c, dir, m), m, true)
  {
    if BaseName(path) == MARKER_NAME {
      MarkerIsNotAccepted(path);
    }
    assert path in WriteManifest(c, dir, m).files && !TypeAllowed(m.format, path);
  }

  lemma TwoEntries(c: Codec, files: map<string, Bytes>, a: string, b: string)
    requires a in files && b in files && IsListed(a) && IsListed(b)
    ensures Entries(c, files, [a, b]) == [EntryOf(c, a, files[a]), EntryOf(c, b, files[b])]
  {
    assert [a, b][..1] == [a];
    var none: seq<string> := [];
    assert [a][..0] == none;
    assert Entries(c, files, none) == [];
    assert Entries(c, files, [a]) == [EntryOf(c, a, files[a])];
  }

  lemma TwoPaths(entries: seq<Entry>, a: string, b: string)
    requires |entries| == 2 && entries[0].path == a && entries[1].path == b
    ensures Paths(entries) == [a, b]
  {
  }

  lemma EndingOfTwo(a: string, b: string, suffix: string)
    ensures Ending([a, b], suffix) == (if EndsWith(a, suffix) then [a] else []) + (if EndsWith(b, suffix) then [b] else [])
  {
    assert [a, b][1..] == [b];
    var none: seq<string> := [];
    assert [b][1..] == none;
    assert Ending(none, suffix) == none;
  }

  /******* What is built *******/

  /** The listed files, in the order of the walk. */
  function ListedPaths(listing: seq<string>): seq<string> {
    if listing == [] then []
    else
      var init, path := listing[..|listing| - 1], listing[|listing| - 1];
      ListedPaths(init) + if BaseName(path) == MANIFEST_NAME then [] else [path]
  }

  lemma {:induction false} EntriesAreListed(c: Codec, files: map<string, Bytes>, listing: seq<string>)
    requires AllIn(listing, files)
    ensures Paths(Entries(c, files, listing)) == ListedPaths(listing)
    ensures forall i :: 0 <= i < |ListedPaths(listing)| ==> ListedPaths(listing)[i] in files
    ensures forall i :: 0 <= i < |Entries(c, files, listing)| ==>
              var e := Entries(c, files, listing)[i];
              e.path in files && e.size == |files[e.path]| && e.sha256 == c.sha256(files[e.path])
  {
    if listing != [] {
      EntriesAreListed(c, files, listing[..|listing| - 1]);
    }
  }

  /** Some path ends in the weight suffix of the format. */
  ghost predicate HasWeights(format: Format, paths: seq<string>) {
    exists i :: 0 <= i < |paths| && EndsWith(paths[i], if format.Gguf? then ".gguf" else ".safetensors")
  }

  lemma {:induction false} EndingIsThere(paths: seq<string>, suffix: string)
    ensures Ending(paths, suffix) != [] <==> exists i :: 0 <= i < |paths| && EndsWith(paths[i], suffix)
  {
    if paths != [] {
      EndingIsThere(paths[1..], suffix);
      if i :| 0 <= i < |paths| && EndsWith(paths[i], suffix) {
        assert i > 0 ==> paths[1..][i - 1] == paths[i];
      }
      if i :| 0 <= i < |paths[1..]| && EndsWith(paths[1..][i], suffix) {
        assert paths[i + 1] == paths[1..][i];
      }
    }
  }

  lemma FormatChosen(given: Option<Format>, paths: seq<string>)
    ensures ChooseFormat(given, paths)
         == if given.Some? then given
            else if HasWeights(Gguf, paths) && !HasWeights(Safetensors, paths) then Some(Gguf)
            else if HasWeights(Safetensors, paths) && !HasWeights(Gguf, paths) then Some(Safetensors)
            else None
  {
    EndingIsThere(paths, ".gguf");
    EndingIsThere(paths, ".safetensors");
  }

  /** A manifest is built exactly of a directory without links whose listed files all have acceptable paths and
      satisfy the format's rules, the format being the one asked for or the only one with weights there.  It
      carries the identity given and lists every listed file, in the walk's order, with its size and hash. */
  lemma BuildsExactly(c: Codec, dir: ModelDir, listing: seq<string>, meta: Meta, m: ModelManifest)
    requires AllIn(listing, dir.files)
    ensures Built(c, dir, listing, meta) == Some(m) <==>
              && dir.symlinks == {} && AllAccepted(listing) && WellFormed(m)
              && m.modelId == meta.modelId && m.revision == meta.revision
              && Paths(m.files) == ListedPaths(listing)
              && (forall i :: 0 <= i < |m.files| ==> Matches(c, dir.files, m.files[i]))
              && (if meta.format.Some? then m.format == meta.format.value
                  else HasWeights(m.format, ListedPaths(listing))
                       && !HasWeights(if m.format.Gguf? then Safetensors else Gguf, ListedPaths(listing)))
  {
    hide WellFormed, AllAccepted, ListedPaths, HasWeights, ChooseFormat;
    var entries := Entries(c, dir.files, listing);
    EntriesAreListed(c, dir.files, listing);
    FormatChosen(meta.format, Paths(entries));
    if Paths(m.files) == ListedPaths(listing) && forall i :: 0 <= i < |m.files| ==> Matches(c, dir.files, m.files[i]) {
      SamePathsSameEntries(c, dir.files, m.files, entries);
    }
  }

  lemma SamePathsSameEntries(c: Codec, files: map<string, Bytes>, a: seq<Entry>, b: seq<Entry>)
    requires Paths(a) == Paths(b)
    requires forall i :: 0 <= i < |a| ==> Matches(c, files, a[i])
    requires forall i :: 0 <= i < |b| ==> b[i].path in files && b[i].size == |files[b[i].path]| && b[i].sha256 == c.sha256(files[b[i].path])
    ensures a == b
  {
    assert |a| == |Paths(a)| == |Paths(b)| == |b|;
    forall i | 0 <= i < |a| ensures a[i] == b[i] {
      assert Paths(a)[i] == Paths(b)[i];
      assert Matches(c, files, a[i]);
    }
  }
}
