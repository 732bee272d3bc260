/**
 Which relative paths a manifest may name: the check as written, through the POSIX path parser,
 against an independent reading of the accepted set, and why accepted paths are safe to join to
 a root directory.
 */
module ArtifactPath {

  /******* Strings *******/

  function Split(s: string, sep: char): (parts: seq<string>)
    ensures |parts| > 0
  {
    if s == "" then [""]
    else
      var rest := Split(s[1..], sep);
      if s[0] == sep then [""] + rest else [[s[0]] + rest[0]] + rest[1..]
  }

  function JoinWith(parts: seq<string>, sep: char): string {
    if parts == [] then ""
    else if |parts| == 1 then parts[0]
    else parts[0] + [sep] + JoinWith(parts[1..], sep)
  }

  /** Lower case, as far as it matters to the suffix sets: ASCII letters and the Kelvin sign. */
  function LowerChar(c: char): char {
    if 'A' <= c <= 'Z' then ((c as int) + 32) as char else if c == '\U{212A}' then 'k' else c
  }

  function Lower(s: string): string {
    seq(|s|, i requires 0 <= i < |s| => LowerChar(s[i]))
  }

  function LastIndexOf(s: string, c: char): (i: int)
    ensures -1 <= i < |s|
    ensures 0 <= i ==> s[i] == c
    ensures forall j | i < j < |s| :: s[j] != c
  {
    if s == "" then -1
    else if s[|s| - 1] == c then |s| - 1
    else LastIndexOf(s[..|s| - 1], c)
  }

  /******* The POSIX path parser *******/

  /** A parsed path: "" for a relative path, "/" or "//" for an absolute one, and its parts. */
  datatype PurePath = PurePath(root: string, parts: seq<string>) {

    function Name(): string {
      if parts == [] then "" else parts[|parts| - 1]
    }

    function Suffix(): string {
      NameSuffix(Name())
    }

    function AsPosix(): string {
      if root == "" && parts == [] then "." else root + JoinWith(parts, '/')
    }
  }

  /** The suffix of a file name: from its last dot, unless that dot begins or ends the name. */
  function NameSuffix(name: string): string {
    var i := LastIndexOf(name, '.');
    if 0 < i < |name| - 1 then name[i..] else ""
  }

  /** Neither empty nor a step in place or upwards. */
  predicate Ordinary(parts: seq<string>) {
    forall i | 0 <= i < |parts| :: parts[i] != "" && parts[i] != "." && parts[i] != ".."
  }

  function Meaningful(parts: seq<string>): seq<string> {
    if parts == [] then []
    else (if parts[0] == "" || parts[0] == "." then [] else [parts[0]]) + Meaningful(parts[1..])
  }

  function Root(raw: string): string {
    if raw == "" || raw[0] != '/' then ""
    else if "//" <= raw && !("///" <= raw) then "//"
    else "/"
  }

  function Parse(raw: string): PurePath {
    PurePath(Root(raw), Meaningful(Split(raw, '/')))
  }

  /******* The check *******/

  const UNSAFE_SUFFIXES := {".bin", ".ckpt", ".pkl", ".pickle", ".pt", ".pth", ".py"}
  const ALLOWED_SUFFIXES := {".json", ".gguf", ".jinja", ".model", ".safetensors", ".tiktoken", ".txt"}

  datatype Verdict = Accepted(path: string) | Forbidden | Unsafe | NonCanonical | UnsafeType | UnsupportedType

  function ValidateRelativeArtifactPath(raw: string): Verdict {
    if raw == "" || '\\' in raw || '\0' in raw then Forbidden
    else
      var path := Parse(raw);
      if path.root != "" || !Ordinary(path.parts) then Unsafe
      else if path.AsPosix() != raw then NonCanonical
      else if Lower(path.Suffix()) in UNSAFE_SUFFIXES then UnsafeType
      else if Lower(path.Suffix()) !in ALLOWED_SUFFIXES then UnsupportedType
      else Accepted(path.AsPosix())
  }

  /******* An independent reading *******/

  function BaseName(raw: string): string {
    var parts := Split(raw, '/');
    parts[|parts| - 1]
  }

  /** No backslash or NUL, every part between slashes an ordinary name, and an allowed suffix. */
  predicate Acceptable(raw: string) {
    && '\\' !in raw && '\0' !in raw
    && Ordinary(Split(raw, '/'))
    && Lower(NameSuffix(BaseName(raw))) in ALLOWED_SUFFIXES
  }

  /** A separator before joined parts is an empty part before them. */
  lemma JoinEmptyFirst(parts: seq<string>, sep: char)
    requires parts != []
    ensures JoinWith([""] + parts, sep) == [sep] + JoinWith(parts, sep)
  {
    assert ([""] + parts)[1..] == parts;
    assert "" + [sep] + JoinWith(parts, sep) == [sep] + JoinWith(parts, sep);
  }

  /** A character before joined parts belongs to the first of them. */
  lemma JoinLongerFirst(c: char, parts: seq<string>, sep: char)
    requires parts != []
    ensures JoinWith([[c] + parts[0]] + parts[1..], sep) == [c] + JoinWith(parts, sep)
  {
    var longer := [[c] + parts[0]] + parts[1..];
    assert longer[1..] == parts[1..];
    if |parts| > 1 {
      var rest := [sep] + JoinWith(parts[1..], sep);
      assert parts[0] + [sep] + JoinWith(parts[1..], sep) == parts[0] + rest;
      assert ([c] + parts[0]) + [sep] + JoinWith(parts[1..], sep) == [c] + (parts[0] + rest);
    }
  }

  /** Joining undoes splitting. */
  lemma {:induction false} JoinSplit(s: string, sep: char)
    ensures JoinWith(Split(s, sep), sep) == s
  {
    if s != "" {
      hide JoinWith;
      JoinSplit(s[1..], sep);
      assert s == [s[0]] + s[1..];
      if s[0] == sep {
        JoinEmptyFirst(Split(s[1..], sep), sep);
      } else {
        JoinLongerFirst(s[0], Split(s[1..], sep), sep);
      }
    }
  }

  lemma {:induction false} MeaningfulKeepsOrdinary(parts: seq<string>)
    requires Ordinary(parts)
    ensures Meaningful(parts) == parts
  {
    if parts != [] {
      MeaningfulKeepsOrdinary(parts[1..]);
    }
  }

  lemma {:induction false} MeaningfulHasNoSlash(parts: seq<string>)
    requires forall part | part in parts :: '/' !in part
    ensures forall part | part in Meaningful(parts) :: '/' !in part
  {
    if parts != [] {
      assert forall part | part in parts[1..] :: part in parts;
      MeaningfulHasNoSlash(parts[1..]);
    }
  }

  lemma {:induction false} SplitPartsHaveNoSep(s: string, sep: char)
    ensures forall part | part in Split(s, sep) :: sep !in part
  {
    if s != "" {
      SplitPartsHaveNoSep(s[1..], sep);
      var rest := Split(s[1..], sep);
      assert rest[0] in rest;
    }
  }

  lemma {:induction false} SplitOne(part: string, sep: char)
    requires sep !in part
    ensures Split(part, sep) == [part]
  {
    if part != "" {
      SplitOne(part[1..], sep);
      assert [part[0]] + part[1..] == part;
    }
  }

  lemma {:induction false} SplitFirst(part: string, rest: string, sep: char)
    requires sep !in part
    ensures Split(part + [sep] + rest, sep) == [part] + Split(rest, sep)
  {
    var s := part + [sep] + rest;
    if part == "" {
      assert s[1..] == rest;
    } else {
      assert s[1..] == part[1..] + [sep] + rest;
      SplitFirst(part[1..], rest, sep);
      assert [part[0]] + part[1..] == part;
    }
  }

  lemma {:induction false} SplitJoin(parts: seq<string>, sep: char)
    requires parts != [] && forall part | part in parts :: sep !in part
    ensures Split(JoinWith(parts, sep), sep) == parts
  {
    if |parts| == 1 {
      SplitOne(parts[0], sep);
    } else {
      SplitJoin(parts[1..], sep);
      SplitFirst(parts[0], JoinWith(parts[1..], sep), sep);
    }
  }

  lemma RootlessBeginsWithName(raw: string)
    ensures raw != "" && Split(raw, '/')[0] != "" ==> Root(raw) == ""
  {
  }

  lemma OrdinaryPartsAreKept(raw: string)
    requires raw != "" && Ordinary(Split(raw, '/'))
    ensures Parse(raw) == PurePath("", Split(raw, '/')) && Parse(raw).AsPosix() == raw
  {
    RootlessBeginsWithName(raw);
    MeaningfulKeepsOrdinary(Split(raw, '/'));
    JoinSplit(raw, '/');
  }

  lemma KeptPartsAreOrdinary(raw: string)
    requires raw != "." && Parse(raw).root == "" && Parse(raw).AsPosix() == raw && Ordinary(Parse(raw).parts)
    ensures Ordinary(Split(raw, '/'))
  {
    SplitPartsHaveNoSep(raw, '/');
    MeaningfulHasNoSlash(Split(raw, '/'));
    var parts := Parse(raw).parts;
    assert "" + JoinWith(parts, '/') == JoinWith(parts, '/');
    SplitJoin(parts, '/');
  }

  /** The parser gives a relative path back unchanged exactly when no part needed cleaning up. */
  lemma CanonicalMeansOrdinaryParts(raw: string)
    requires raw != "" && raw != "."
    ensures var path := Parse(raw);
            (path.root == "" && path.AsPosix() == raw && Ordinary(path.parts)) <==> Ordinary(Split(raw, '/'))
    ensures Ordinary(Split(raw, '/')) ==> Parse(raw).parts == Split(raw, '/')
  {
    if Ordinary(Split(raw, '/')) {
      OrdinaryPartsAreKept(raw);
    } else if Parse(raw).root == "" && Parse(raw).AsPosix() == raw && Ordinary(Parse(raw).parts) {
      KeptPartsAreOrdinary(raw);
    }
  }

  /** Raw "." parses to a path of no parts; only the suffix rule refuses it. */
  lemma BareDot()
    ensures Split(".", '/') == ["."] && Parse(".") == PurePath("", [])
  {
    SplitOne(".", '/');
  }

  lemma AcceptsOrdinary(raw: string)
    requires raw != "" && raw != "."
    ensures ValidateRelativeArtifactPath(raw) == Accepted(raw) <==> Acceptable(raw)
    ensures ValidateRelativeArtifactPath(raw).Accepted? ==> ValidateRelativeArtifactPath(raw) == Accepted(raw)
  {
    CanonicalMeansOrdinaryParts(raw);
    SuffixSetsAreDisjoint();
    hide Split, JoinWith, Lower, NameSuffix, Meaningful, Root, Ordinary;
  }

  /** The check accepts exactly the paths made of ordinary names with an allowed suffix. */
  lemma AcceptsExactly(raw: string)
    ensures ValidateRelativeArtifactPath(raw).Accepted? <==> Acceptable(raw)
    ensures Acceptable(raw) ==> ValidateRelativeArtifactPath(raw) == Accepted(raw)
  {
    if raw == "" {
      assert Split(raw, '/')[0] == "";
    } else if raw == "." {
      BareDot();
      assert Split(raw, '/')[0] == ".";
      assert ValidateRelativeArtifactPath(raw) == UnsupportedType;
    } else {
      hide ValidateRelativeArtifactPath, Acceptable;
      AcceptsOrdinary(raw);
    }
  }

  lemma SuffixSetsAreDisjoint()
    ensures ALLOWED_SUFFIXES !! UNSAFE_SUFFIXES
  {
    forall s | s in ALLOWED_SUFFIXES ensures s !in UNSAFE_SUFFIXES {
      assert |s| > 1 && s[1] != 'b';
    }
  }

  /** The suffix of a name is its last dot and what follows, if something comes before and after that dot. */
  lemma SuffixIsFromLastDot(stem: string, extension: string)
    requires '.' !in extension
    ensures NameSuffix(stem + "." + extension) == if stem == "" || extension == "" then "" else "." + extension
    ensures NameSuffix(extension) == ""
  {
    var name := stem + "." + extension;
    assert name[|stem|] == '.' && name[|stem|..] == "." + extension;
    assert forall j :: |stem| < j < |name| ==> name[j] == extension[j - |stem| - 1];
  }

  /******* Joining an accepted path to a root directory *******/

  /** Where following one path component leads, as a stack of names below the root; None: above it. */
  datatype Location = Below(names: seq<string>) | Escaped

  function Enter(at: Location, part: string): Location {
    if at.Escaped? || part in {"", "."} then at
    else if part == ".." then if at.names == [] then Escaped else Below(at.names[..|at.names| - 1])
    else Below(at.names + [part])
  }

  function Follow(at: Location, parts: seq<string>): Location
    decreases |parts|
  {
    if parts == [] then at else Follow(Enter(at, parts[0]), parts[1..])
  }

  function Locate(raw: string): Location {
    Follow(Below([]), Split(raw, '/'))
  }

  lemma {:induction false} FollowOrdinary(names: seq<string>, parts: seq<string>)
    requires Ordinary(parts)
    ensures Follow(Below(names), parts) == Below(names + parts)
    decreases |parts|
  {
    if parts == [] {
      assert names + parts == names;
    } else {
      FollowOrdinary(names + [parts[0]], parts[1..]);
      assert names + [parts[0]] + parts[1..] == names + parts;
    }
  }

  /** At no step does an accepted path leave the root, and it ends strictly below it. */
  lemma AcceptedStaysBelow(raw: string, n: nat)
    requires ValidateRelativeArtifactPath(raw).Accepted? && n <= |Split(raw, '/')|
    ensures Follow(Below([]), Split(raw, '/')[..n]) == Below(Split(raw, '/')[..n])
    ensures Locate(raw) == Below(Split(raw, '/')) && Locate(raw).names != []
  {
    AcceptsExactly(raw);
    FollowFromRoot(Split(raw, '/'));
    FollowFromRoot(Split(raw, '/')[..n]);
  }

  lemma FollowFromRoot(parts: seq<string>)
    requires Ordinary(parts)
    ensures Follow(Below([]), parts) == Below(parts)
  {
    FollowOrdinary([], parts);
    assert [] + parts == parts;
  }

  /** Accepted paths that lead to the same location are the same path. */
  lemma AcceptedPathsAreDistinct(a: string, b: string)
    requires ValidateRelativeArtifactPath(a).Accepted? && ValidateRelativeArtifactPath(b).Accepted?
    requires Locate(a) == Locate(b)
    ensures a == b
  {
    AcceptedStaysBelow(a, 0);
    AcceptedStaysBelow(b, 0);
    JoinSplit(a, '/');
    JoinSplit(b, '/');
  }
}
