/**
 The contracts on hashing, text encoding and the manifest's JSON form can hold together: prefix
 codes for strings and manifests, and an injective digest in hexadecimal.
 */
module CodecWitness {
  import opened EngineBase
  import opened ArtifactPath
  import opened BuildManifest
  import opened Manifest
  import opened Sequences

  function ByteOf(n: nat): Byte {
    (n % 256) as Byte
  }

  function CharCode(c: char): Bytes {
    [1, ByteOf(c as int / 65536), ByteOf(c as int / 256), ByteOf(c as int)]
  }

  lemma DigitsOf(x: nat)
    ensures x == 65536 * (x / 65536) + 256 * ((x / 256) % 256) + x % 256
  {
    assert x / 65536 == x / 256 / 256;
  }

  lemma CharCodeDigits(c: char)
    ensures var x := c as int;
            CharCode(c)[1] as int == x / 65536 && CharCode(c)[2] as int == (x / 256) % 256 && CharCode(c)[3] as int == x % 256
  {
    assert c as int / 65536 < 256;
  }

  lemma CharCodesDiffer(c: char, d: char)
    requires CharCode(c) == CharCode(d)
    ensures c == d
  {
    CharCodeDigits(c);
    CharCodeDigits(d);
    hide CharCode;
    DigitsOf(c as int);
    DigitsOf(d as int);
  }

  function StringCode(s: string): Bytes {
    if s == "" then [0] else CharCode(s[0]) + StringCode(s[1..])
  }

  /** The first byte tells an empty string from a longer one, the next three its first character. */
  lemma FirstOfCode(s: string, r: Bytes)
    ensures var x := StringCode(s) + r;
            if s == "" then x[0] == 0 && x[1..] == r
            else x[0] == 1 && x[..4] == CharCode(s[0]) && x[4..] == StringCode(s[1..]) + r
  {
    var x := StringCode(s) + r;
    if s != "" {
      assert x == CharCode(s[0]) + (StringCode(s[1..]) + r);
    }
  }

  lemma {:induction false} StringsDecode(s: string, t: string, r: Bytes, q: Bytes)
    requires StringCode(s) + r == StringCode(t) + q
    ensures s == t && r == q
    decreases |s|
  {
    hide StringCode, CharCode;
    FirstOfCode(s, r);
    FirstOfCode(t, q);
    if s != "" {
      CharCodesDiffer(s[0], t[0]);
      StringsDecode(s[1..], t[1..], r, q);
      assert s == [s[0]] + s[1..] && t == [t[0]] + t[1..];
    }
  }

  function NatCode(n: nat): Bytes {
    if n == 0 then [0] else [1] + NatCode(n - 1)
  }

  lemma {:induction false} NatsDecode(m: nat, n: nat, r: Bytes, q: Bytes)
    requires NatCode(m) + r == NatCode(n) + q
    ensures m == n && r == q
    decreases m
  {
    var x, y := NatCode(m) + r, NatCode(n) + q;
    assert x[0] == (if m == 0 then 0 else 1) && y[0] == (if n == 0 then 0 else 1);
    if m == 0 {
      assert x[1..] == r && y[1..] == q;
    } else {
      assert x[1..] == NatCode(m - 1) + r && y[1..] == NatCode(n - 1) + q;
      NatsDecode(m - 1, n - 1, r, q);
    }
  }

  function FilesCode(files: seq<Entry>): Bytes {
    if files == [] then [0]
    else
      var e := files[0];
      [1] + (StringCode(e.path) + (NatCode(e.size) + (StringCode(e.sha256) + FilesCode(files[1..]))))
  }

  lemma {:induction false} FilesDecode(a: seq<Entry>, b: seq<Entry>)
    requires FilesCode(a) == FilesCode(b)
    ensures a == b
    decreases |a|
  {
    assert FilesCode(a)[0] == (if a == [] then 0 else 1) && FilesCode(b)[0] == (if b == [] then 0 else 1);
    if a != [] {
      var e, f := a[0], b[0];
      var x, y := StringCode(e.sha256) + FilesCode(a[1..]), StringCode(f.sha256) + FilesCode(b[1..]);
      assert FilesCode(a)[1..] == StringCode(e.path) + (NatCode(e.size) + x);
      assert FilesCode(b)[1..] == StringCode(f.path) + (NatCode(f.size) + y);
      StringsDecode(e.path, f.path, NatCode(e.size) + x, NatCode(f.size) + y);
      NatsDecode(e.size, f.size, x, y);
      StringsDecode(e.sha256, f.sha256, FilesCode(a[1..]), FilesCode(b[1..]));
      FilesDecode(a[1..], b[1..]);
      assert a == [e] + a[1..] && b == [f] + b[1..];
    }
  }

  function ManifestCode(m: ModelManifest): Bytes {
    StringCode(m.modelId) + (StringCode(m.revision) + ([if m.format.Gguf? then 1 else 0] + FilesCode(m.files)))
  }

  lemma ManifestsDecode(m: ModelManifest, n: ModelManifest)
    requires ManifestCode(m) == ManifestCode(n)
    ensures m == n
  {
    var x, y := [if m.format.Gguf? then 1 else 0] + FilesCode(m.files), [if n.format.Gguf? then 1 else 0] + FilesCode(n.files);
    StringsDecode(m.modelId, n.modelId, StringCode(m.revision) + x, StringCode(n.revision) + y);
    StringsDecode(m.revision, n.revision, x, y);
    assert x[0] == y[0] && x[1..] == FilesCode(m.files) && y[1..] == FilesCode(n.files);
    FilesDecode(m.files, n.files);
  }

  function Digit(n: nat): char
    requires n < 16
  {
    if n < 10 then '0' + n as char else 'a' + (n - 10) as char
  }

  function Hex(b: Bytes): string {
    if b == [] then "0" else [Digit(b[0] as int / 16), Digit(b[0] as int % 16)] + Hex(b[1..])
  }

  lemma {:induction false} HexIsHex(b: Bytes)
    ensures IsHex(Hex(b)) && |Hex(b)| == 2 * |b| + 1
  {
    if b != [] {
      HexIsHex(b[1..]);
    }
  }

  lemma {:induction false} HexDecodes(a: Bytes, b: Bytes)
    requires Hex(a) == Hex(b)
    ensures a == b
  {
    HexIsHex(a);
    HexIsHex(b);
    if a != [] {
      assert Hex(a)[0] == Hex(b)[0] && Hex(a)[1] == Hex(b)[1];
      assert Hex(a)[2..] == Hex(a[1..]) && Hex(b)[2..] == Hex(b[1..]);
      HexDecodes(a[1..], b[1..]);
      assert a == [a[0]] + a[1..] && b == [b[0]] + b[1..];
    }
  }

  ghost function Decoded(b: Bytes): (r: Option<string>)
    ensures r.None? ==> forall s :: StringCode(s) != b
    ensures r.Some? ==> StringCode(r.value) == b
  {
    if exists s :: StringCode(s) == b then
      var s :| StringCode(s) == b;
      Some(s)
    else None
  }

  ghost function Parsed(b: Bytes): (r: Option<ModelManifest>)
    ensures r.None? ==> forall m :: ManifestCode(m) != b
    ensures r.Some? ==> ManifestCode(r.value) == b
  {
    if exists m :: ManifestCode(m) == b then
      var m :| ManifestCode(m) == b;
      Some(m)
    else None
  }

  /** A codec that meets every contract assumed of one. */
  lemma ContractsAreSatisfiable() returns (c: Codec)
    ensures Faithful(c) && CollisionFree(c) && HexDigests(c)
    ensures |c.sha256([])| == 1 && forall m :: c.print_(m) == ManifestCode(m)
  {
    c := Codec(b => Hex(b), s => StringCode(s), b => Decoded(b), b => Parsed(b), m => ManifestCode(m), m => ManifestCode(m));
    HexIsHex([]);
    hide StringCode, ManifestCode, Hex, IsHex;
    forall m ensures c.parse(c.print_(m)) == Some(m) {
      ManifestsDecode(m, Parsed(ManifestCode(m)).value);
    }
    forall s ensures c.decode(c.encode(s)) == Some(s) {
      var t := Decoded(StringCode(s)).value;
      StringsDecode(s, t, [], []);
    }
    forall a, b | c.sha256(a) == c.sha256(b) ensures a == b {
      HexDecodes(a, b);
    }
    forall m, n | c.canonical(m) == c.canonical(n) ensures m == n {
      ManifestsDecode(m, n);
    }
    forall b ensures IsHex(c.sha256(b)) {
      HexIsHex(b);
    }
  }

  /******* A published revision *******/

  lemma {:induction false} StringCodeLength(s: string)
    ensures |StringCode(s)| == 4 * |s| + 1
  {
    if s != "" {
      StringCodeLength(s[1..]);
    }
  }

  function OneFile(sha256: Digest): ModelManifest {
    ModelManifest("id", "rev", Gguf, [Entry("m.gguf", 0, sha256)])
  }

  lemma OneFileIsShort(sha256: Digest)
    requires |sha256| == 1
    ensures |ManifestCode(OneFile(sha256))| <= MAX_MANIFEST_BYTES
  {
    var m := OneFile(sha256);
    StringCodeLength(m.modelId);
    StringCodeLength(m.revision);
    StringCodeLength(m.files[0].path);
    StringCodeLength(sha256);
    hide StringCode;
    var none: seq<Entry> := [];
    assert m.files[1..] == none;
    assert |FilesCode(none)| == 1 && |NatCode(0)| == 1;
  }

  lemma OneFileBuilds(c: Codec)
    ensures var dir := ModelDir(map["m.gguf" := []], {});
            Built(c, dir, ["m.gguf"], Meta("id", "rev", None)) == Some(OneFile(c.sha256([])))
  {
    ExampleWeights();
    hide ValidateRelativeArtifactPath, BaseName;
    ManifestNameIsNotWeights();
    var dir := ModelDir(map["m.gguf" := []], {});
    var listing, none := ["m.gguf"], [];
    assert listing[..0] == none;
    assert Entries(c, dir.files, none) == [];
    var m := OneFile(c.sha256([]));
    assert Entries(c, dir.files, listing) == m.files;
    assert Paths(m.files) == listing;
    assert listing[1..] == none && Ending(none, ".gguf") == [] && Ending(none, ".safetensors") == [];
    assert Ending(listing, ".gguf") == listing && Ending(listing, ".safetensors") == [];
    assert WellFormed(m);
  }

  lemma ManifestNameIsNotWeights()
    ensures "m.gguf" != MANIFEST_NAME
  {
    assert |"m.gguf"| == 6;
  }

  lemma OneFileSuffix()
    ensures LowerSuffix("m.gguf") == NameSuffix(BaseName("m.gguf"))
  {
    PlainName("m.gguf", 1);
    hide BaseName;
    assert "m.gguf"[1..] == ".gguf";
  }

  lemma OneFileListed(content: Bytes)
    ensures var dir := ModelDir(map["m.gguf" := content], {});
            && Lists(["m.gguf"], dir.files)
            && forall path | path in dir.files && IsListed(path) :: LowerSuffix(path) == NameSuffix(BaseName(path))
  {
    OneFileSuffix();
  }

  lemma OneFileValidates(c: Codec)
    requires Faithful(c) && |c.print_(OneFile(c.sha256([])))| <= MAX_MANIFEST_BYTES
    ensures var m := OneFile(c.sha256([]));
            ValidAgainst(c, WriteManifest(c, ModelDir(map["m.gguf" := []], {}), m), m, true)
  {
    OneFileBuilds(c);
    OneFileListed([]);
    hide Built, ValidAgainst, LowerSuffix, NameSuffix, BaseName, Lists, IsListed;
    LowerCaseBuildsValidate(c, ModelDir(map["m.gguf" := []], {}), ["m.gguf"], Meta("id", "rev", None), OneFile(c.sha256([])));
  }

  /** With that codec a directory exists that a publisher accepts and that does not list its own manifest. */
  lemma ARevisionExists() returns (c: Codec, dir: ModelDir, m: ModelManifest)
    ensures Faithful(c) && CollisionFree(c) && HexDigests(c)
    ensures ValidAgainst(c, dir, m, true) && MANIFEST_NAME !in Paths(m.files)
  {
    hide Faithful, CollisionFree, HexDigests, ManifestCode, ValidAgainst, WriteManifest;
    c := ContractsAreSatisfiable();
    OneFileIsShort(c.sha256([]));
    OneFileValidates(c);
    m := OneFile(c.sha256([]));
    dir := WriteManifest(c, ModelDir(map["m.gguf" := []], {}), m);
    ManifestNameIsNotWeights();
    assert Paths(m.files) == ["m.gguf"];
  }
}
