/**
 Unpacking the runtime archive: regular members are written under their base names, links are
 remembered and then followed through other links to a file to copy.
 */
module LinkResolver {
  import opened ArtifactPath
  import opened Sequences

  type Bytes = string

  type Links = map<string, string>

  /** The regular files in the destination, by name. */
  type Files = map<string, Bytes>

  datatype Kind = LinkTo(linkname: string) | Regular(content: Bytes) | Special

  datatype Member = Member(name: string, kind: Kind)

  /******* Which members are kept *******/

  function ExecutableName(key: string): string {
    if "win32" <= key then "llama-server.exe" else "llama-server"
  }

  predicate IsRuntimeFile(name: string, key: string) {
    var lowered := Lower(name);
    if name == ExecutableName(key) || lowered in {"license", "license.txt"} then true
    else
      && (EndsWith(lowered, ".dll") || EndsWith(lowered, ".dylib") || Contains(lowered, ".so"))
      && !(Contains(lowered, "-impl") && !Contains(lowered, "server-impl"))
  }

  /** The server is kept under the platform's name for it, and so are licences; of the rest, shared libraries,
      except implementation libraries that are not the server's. */
  lemma WhatIsKept(name: string, key: string)
    ensures "win32" <= key ==> (IsRuntimeFile("llama-server.exe", key) && ExecutableName(key) == "llama-server.exe")
    ensures !("win32" <= key) ==> (IsRuntimeFile("llama-server", key) && ExecutableName(key) == "llama-server")
    ensures var lowered := Lower(name);
            name != ExecutableName(key) ==>
              (IsRuntimeFile(name, key) <==>
                 lowered == "license" || lowered == "license.txt"
                 || (((exists stem :: lowered == stem + ".dll" || lowered == stem + ".dylib") || Occurs(".so", lowered))
                     && (Occurs("-impl", lowered) ==> Occurs("server-impl", lowered))))
  {
    hide Contains;
    var lowered := Lower(name);
    EndsAfterStem(lowered, ".dll");
    EndsAfterStem(lowered, ".dylib");
    ContainsMeansOccurs(lowered, ".so");
    ContainsMeansOccurs(lowered, "-impl");
    ContainsMeansOccurs(lowered, "server-impl");
  }

  ghost predicate Occurs(part: string, s: string) {
    exists p: nat :: OccursAt(s, part, p)
  }

  lemma EndsAfterStem(s: string, suffix: string)
    ensures EndsWith(s, suffix) <==> exists stem :: s == stem + suffix
  {
    if EndsWith(s, suffix) {
      assert s == s[..|s| - |suffix|] + suffix;
    }
  }

  function Base(path: string): string {
    Parse(path).Name()
  }

  predicate Kept(m: Member, key: string) {
    Base(m.name) != "" && IsRuntimeFile(Base(m.name), key)
  }

  function LinksIn(members: seq<Member>, key: string): Links {
    if members == [] then map[]
    else
      var before, m := LinksIn(members[..|members| - 1], key), members[|members| - 1];
      if Kept(m, key) && m.kind.LinkTo? then before[Base(m.name) := Base(m.kind.linkname)] else before
  }

  function FilesIn(start: Files, members: seq<Member>, key: string): Files {
    if members == [] then start
    else
      var before, m := FilesIn(start, members[..|members| - 1], key), members[|members| - 1];
      if Kept(m, key) && m.kind.Regular? then before[Base(m.name) := m.kind.content] else before
  }

  /** Member m writes the file called name. */
  predicate WritesTo(m: Member, key: string, name: string) {
    Kept(m, key) && m.kind.Regular? && Base(m.name) == name
  }

  /** A file holds what the last member of its base name held. */
  lemma {:induction false} LastMemberWins(start: Files, members: seq<Member>, key: string, name: string, i: nat)
    requires i < |members| && WritesTo(members[i], key, name)
    requires forall j :: i < j < |members| ==> !WritesTo(members[j], key, name)
    ensures name in FilesIn(start, members, key) && FilesIn(start, members, key)[name] == members[i].kind.content
    decreases |members|
  {
    hide Kept, Base;
    var n := |members| - 1;
    if i < n {
      LastMemberWins(start, members[..n], key, name, i);
      assert !WritesTo(members[n], key, name);
    }
  }

  /** Member m sets the link called name. */
  predicate SetsLink(m: Member, key: string, name: string) {
    Kept(m, key) && m.kind.LinkTo? && Base(m.name) == name
  }

  /** A link points to the base name of what the last kept member of its base name links to. */
  lemma {:induction false} LastLinkWins(members: seq<Member>, key: string, name: string, i: nat)
    requires i < |members| && SetsLink(members[i], key, name)
    requires forall j :: i < j < |members| ==> !SetsLink(members[j], key, name)
    ensures name in LinksIn(members, key) && LinksIn(members, key)[name] == Base(members[i].kind.linkname)
    decreases |members|
  {
    hide Kept, Base;
    var n := |members| - 1;
    if i < n {
      LastLinkWins(members[..n], key, name, i);
      assert !SetsLink(members[n], key, name);
    }
  }

  /** Names no kept member sets or writes are no links, and files only if they were before. */
  lemma {:induction false} UntouchedNames(start: Files, members: seq<Member>, key: string, name: string)
    ensures (forall j :: 0 <= j < |members| ==> !SetsLink(members[j], key, name)) ==> name !in LinksIn(members, key)
    ensures (forall j :: 0 <= j < |members| ==> !WritesTo(members[j], key, name)) ==>
              && (name in FilesIn(start, members, key) <==> name in start)
              && (name in start ==> FilesIn(start, members, key)[name] == start[name])
  {
    hide Kept, Base;
    if members != [] {
      var n := |members| - 1;
      UntouchedNames(start, members[..n], key, name);
      assert forall j :: 0 <= j < n ==> members[..n][j] == members[j];
    }
  }

  /** Of a path that ends in an ordinary name the base is that name. */
  lemma BaseIsLastName(path: string, name: string)
    requires '/' !in name && name != "" && name != "."
    ensures Base(name) == name && Base(path + "/" + name) == name
  {
    SplitOne(name, '/');
    SplitLast(path, name, '/');
    MeaningfulSnoc([], name);
    MeaningfulSnoc(Split(path, '/'), name);
    assert [] + [name] == [name];
  }

  lemma {:induction false} SplitLast(path: string, name: string, sep: char)
    requires sep !in name
    ensures Split(path + [sep] + name, sep) == Split(path, sep) + [name]
  {
    var s := path + [sep] + name;
    if path == "" {
      SplitOne(name, sep);
      assert s[1..] == name;
    } else {
      SplitLast(path[1..], name, sep);
      assert s[1..] == path[1..] + [sep] + name;
    }
  }

  lemma {:induction false} MeaningfulSnoc(parts: seq<string>, name: string)
    requires name != "" && name != "."
    ensures Meaningful(parts + [name]) == Meaningful(parts) + [name]
  {
    if parts == [] {
      var none: seq<string> := [];
      assert parts + [name] == [name] && [name][1..] == none;
      assert Meaningful(none) == none;
    } else {
      var all, own := parts + [name], if parts[0] == "" || parts[0] == "." then [] else [parts[0]];
      MeaningfulSnoc(parts[1..], name);
      assert all[0] == parts[0] && all[1..] == parts[1..] + [name];
      assert own + (Meaningful(parts[1..]) + [name]) == own + Meaningful(parts[1..]) + [name];
    }
  }

  /******* Following links *******/

  /** The source's loop: follow links until something that is no link, or was seen before. */
  function WalkFrom(links: Links, resolved: string, seen: set<string>): string
    decreases links.Keys - seen
  {
    if resolved in links && resolved !in seen then WalkFrom(links, links[resolved], seen + {resolved}) else resolved
  }

  function Walk(links: Links, link: string): string
    requires link in links
  {
    WalkFrom(links, links[link], {link})
  }

  /** The name k links on; a name that is no link stays. */
  function Hop(links: Links, name: string, k: nat): string {
    if k == 0 then name
    else
      var before := Hop(links, name, k - 1);
      if before in links then links[before] else before
  }

  /** The first n names from link are different links. */
  ghost predicate Fresh(links: Links, link: string, n: nat) {
    && (forall j :: 0 <= j < n ==> Hop(links, link, j) in links)
    && (forall i, j :: 0 <= i < j < n ==> Hop(links, link, i) != Hop(links, link, j))
  }

  /** The walk stops at step n: out of the links, or back at an earlier one. */
  ghost predicate StopsAt(links: Links, link: string, n: nat) {
    && Fresh(links, link, n)
    && (Hop(links, link, n) in links ==> exists i :: 0 <= i < n && Hop(links, link, i) == Hop(links, link, n))
  }

  function Passed(links: Links, link: string, n: nat): set<string> {
    set j: nat | j < n :: Hop(links, link, j)
  }

  lemma {:induction false} WalkFromStops(links: Links, link: string, m: nat) returns (n: nat)
    requires Fresh(links, link, m)
    ensures m <= n && StopsAt(links, link, n)
    ensures WalkFrom(links, Hop(links, link, m), Passed(links, link, m)) == Hop(links, link, n)
    decreases links.Keys - Passed(links, link, m)
  {
    var here, seen := Hop(links, link, m), Passed(links, link, m);
    n := m;
    if here in links && here !in seen {
      assert forall i: nat :: i < m ==> Hop(links, link, i) in seen;
      assert Passed(links, link, m + 1) == seen + {here};
      n := WalkFromStops(links, link, m + 1);
    }
  }

  lemma WalkStops(links: Links, link: string) returns (n: nat)
    requires link in links
    ensures 1 <= n && StopsAt(links, link, n) && Walk(links, link) == Hop(links, link, n)
  {
    assert Hop(links, link, 0) == link;
    n := WalkFromStops(links, link, 1);
    assert Passed(links, link, 1) == {link};
  }

  lemma {:induction false} HopsAdd(links: Links, name: string, i: nat, j: nat)
    ensures Hop(links, Hop(links, name, i), j) == Hop(links, name, i + j)
  {
    if j > 0 {
      HopsAdd(links, name, i, j - 1);
    }
  }

  /** A walk that ends on a link ends on a cycle, and from there comes back to itself. */
  lemma CycleWalksToItself(links: Links, link: string)
    requires link in links && Walk(links, link) in links
    ensures Walk(links, Walk(links, link)) == Walk(links, link)
  {
    var n := WalkStops(links, link);
    var r := Walk(links, link);
    var i :| 0 <= i < n && Hop(links, link, i) == r;
    var n' := WalkStops(links, r);
    forall j: nat | j <= n - i ensures Hop(links, r, j) == Hop(links, link, i + j) {
      HopsAdd(links, link, i, j);
    }
    assert Hop(links, r, n - i) == r == Hop(links, r, 0);
  }

  /******* What resolution leaves *******/

  /** The destination once the links in done are resolved. */
  function After(links: Links, files: Files, done: set<string>): Files
    requires done <= links.Keys
  {
    map name | name in files.Keys + done && (name in files || Walk(links, name) in files) ::
      if name in files then files[name] else files[Walk(links, name)]
  }

  function Resolved(links: Links, files: Files): Files {
    After(links, files, links.Keys)
  }

  lemma ResolvingOne(links: Links, files: Files, done: set<string>, link: string)
    requires done <= links.Keys && link in links && link !in done
    ensures var now, source := After(links, files, done), Walk(links, link);
            After(links, files, done + {link}) == if source in now && link !in now then now[link := now[source]] else now
  {
    var source := Walk(links, link);
    if source in links && source !in files {
      CycleWalksToItself(links, link);
    }
  }

  /** A link whose chain never leaves the links. */
  ghost predicate Endless(links: Links, link: string) {
    forall k: nat :: Hop(links, link, k) in links
  }

  lemma {:induction false} LeavesOnce(links: Links, link: string, n: nat, k: nat)
    requires Hop(links, link, n) !in links && n <= k
    ensures Hop(links, link, k) == Hop(links, link, n)
  {
    if n < k {
      LeavesOnce(links, link, n, k - 1);
    }
  }

  lemma {:induction false} NeverLeaves(links: Links, link: string, n: nat, k: nat)
    requires StopsAt(links, link, n) && Hop(links, link, n) in links
    ensures Hop(links, link, k) in links
    decreases k
  {
    if k >= n {
      var i :| 0 <= i < n && Hop(links, link, i) == Hop(links, link, n);
      HopsAdd(links, link, n, k - n);
      HopsAdd(links, link, i, k - n);
      NeverLeaves(links, link, n, i + (k - n));
    }
  }

  /** With link names and file names apart: a link is materialised exactly when its chain ends at an
      extracted file, with that file's bytes; a chain into a cycle never is; files stay as they were. */
  lemma MaterialisedExactly(links: Links, files: Files, link: string)
    requires links.Keys !! files.Keys && link in links
    ensures link in Resolved(links, files)
            <==> exists k: nat :: Hop(links, link, k) !in links && Hop(links, link, k) in files
    ensures forall k: nat :: Hop(links, link, k) !in links && Hop(links, link, k) in files ==>
              Resolved(links, files)[link] == files[Hop(links, link, k)]
    ensures Endless(links, link) ==> link !in Resolved(links, files)
    ensures forall name :: name in files ==> name in Resolved(links, files) && Resolved(links, files)[name] == files[name]
    ensures Resolved(links, files).Keys <= links.Keys + files.Keys
  {
    var n := WalkStops(links, link);
    if Hop(links, link, n) in links {
      forall k: nat ensures Hop(links, link, k) in links {
        NeverLeaves(links, link, n, k);
      }
    } else {
      forall k: nat | Hop(links, link, k) !in links ensures Hop(links, link, k) == Hop(links, link, n) {
        LeavesOnce(links, link, n, if k < n then n else k);
      }
    }
  }

  /******* The program *******/

  class Runtime {
    var files: Files
    var links: Links

    constructor (files: Files)
      ensures this.files == files && links == map[]
    {
      this.files, links := files, map[];
    }

    /** The pass over the members. */
    method ReadMembers(members: seq<Member>, key: string)
      requires links == map[]
      modifies this
      ensures links == LinksIn(members, key)
      ensures files == FilesIn(old(files), members, key)
    {
      hide Kept, Base;
      var i := 0;
      while i < |members|
        invariant 0 <= i <= |members|
        invariant links == LinksIn(members[..i], key)
        invariant files == FilesIn(old(files), members[..i], key)
      {
        var m := members[i];
        assert members[..i + 1][..i] == members[..i];
        if Kept(m, key) {
          match m.kind
          case LinkTo(linkname) => links := links[Base(m.name) := Base(linkname)];
          case Regular(content) => files := files[Base(m.name) := content];
          case Special =>
        }
        i := i + 1;
      }
      assert members[..i] == members;
    }

    /** The pass over the links, in whatever order they come. */
    method ResolveLinks()
      modifies this`files
      ensures files == Resolved(links, old(files))
    {
      ghost var start := files;
      var todo := links.Keys;
      assert files == After(links, start, links.Keys - todo);
      while todo != {}
        invariant todo <= links.Keys
        invariant files == After(links, start, links.Keys - todo)
      {
        var link :| link in todo;
        var resolved := links[link];
        var seen := {link};
        while resolved in links && resolved !in seen
          invariant WalkFrom(links, resolved, seen) == Walk(links, link)
          decreases links.Keys - seen
        {
          seen := seen + {resolved};
          resolved := links[resolved];
        }
        ResolvingOne(links, start, links.Keys - todo, link);
        assert links.Keys - (todo - {link}) == links.Keys - todo + {link};
        if resolved in files && link !in files {
          files := files[link := files[resolved]];
        }
        todo := todo - {link};
      }
      assert links.Keys - todo == links.Keys;
    }

    /** found: the archive held the server, else the source raises. */
    method ExtractRuntime(members: seq<Member>, key: string) returns (found: bool)
      requires links == map[]
      modifies this
      ensures links == LinksIn(members, key)
      ensures files == Resolved(LinksIn(members, key), FilesIn(old(files), members, key))
      ensures found <==> ExecutableName(key) in files
    {
      ReadMembers(members, key);
      ResolveLinks();
      found := ExecutableName(key) in files;
    }
  }
}
