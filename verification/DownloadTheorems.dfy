/**
 What downloads promise over any sequence of attempts, each answered by any server and stopped
 between any two of its steps. Bytes still buffered when a process stops are lost: such a stop leaves
 what the same attempt would have left on a reply cut short there, and every reply is allowed.
 */
module DownloadTheorems {
  import opened EngineBase
  import opened Sequences
  import opened RangeDownload

  /** One attempt: its reply, its --force, and after how many disk steps it stopped. */
  datatype Visit = Visit(reply: Reply, force: bool, stop: nat)

  function Stopped(d: Disk, ds: seq<Disk>, stop: nat): Disk {
    if stop < |ds| then Last(d, ds[..stop]) else Last(d, ds)
  }

  function After(d: Disk, sha: Bytes -> string, artifact: Artifact, v: Visit): Disk {
    Stopped(d, Run(d, sha, artifact, v.reply, v.force).disks, v.stop)
  }

  function AfterAll(d: Disk, sha: Bytes -> string, artifact: Artifact, visits: seq<Visit>): Disk
    decreases |visits|
  {
    if visits == [] then d else AfterAll(After(d, sha, artifact, visits[0]), sha, artifact, visits[1..])
  }

  /******* What is written *******/

  lemma {:induction false} WritesAt(d: Disk, base: Bytes, chunks: seq<Bytes>, n: nat, k: nat)
    requires k <= n <= |chunks|
    ensures Writes(d, base, chunks, n)[k] == d.(partial := File(base + Join(chunks[..k])))
  {
    if k < n {
      WritesAt(d, base, chunks, n - 1, k);
      WritesSnoc(d, base, chunks, n);
    }
  }

  lemma {:induction false} AcceptedFits(written: nat, chunks: seq<Bytes>, limit: nat, k: nat)
    requires written <= limit && k <= Accepted(written, chunks, limit)
    ensures written + |Join(chunks[..k])| <= limit
    ensures Accepted(written, chunks, limit)
         == k + Accepted(written + |Join(chunks[..k])|, chunks[k..], limit)
  {
    if k == 0 {
      assert chunks[..0] == [] && chunks[0..] == chunks;
    } else {
      AcceptedFits(written, chunks, limit, k - 1);
      var here := written + |Join(chunks[..k - 1])|;
      AcceptedSteps(written, chunks, limit, k - 1, here);
      JoinSnoc(chunks, k - 1);
    }
  }

  /** A body that fits is accepted whole. */
  lemma AcceptedWhole(written: nat, chunks: seq<Bytes>, limit: nat)
    requires written + |Join(chunks)| <= limit
    ensures Accepted(written, chunks, limit) == |chunks|
  {
    var n := Accepted(written, chunks, limit);
    AcceptedFits(written, chunks, limit, n);
    if n < |chunks| {
      JoinSnoc(chunks, n);
      JoinPrefix(chunks, n + 1);
    }
  }

  /******* What an outcome means *******/

  predicate Approved(artifact: Artifact) {
    artifact.scheme == "https" && artifact.host == "storage.googleapis.com"
  }

  /** The server answers what was asked for: the whole, or the range that starts where the partial file ends. */
  predicate Answers(d: Disk, reply: Reply)
    requires reply.Body?
  {
    if Offset(d) != 0 && reply.status == 206 then ContentRangeStart(reply.contentRange) == Some(Offset(d))
    else reply.status == 200
  }

  /** What the partial file would hold if the reply were taken to its end. */
  function Brought(d: Disk, reply: Reply): Bytes
    requires reply.Body?
  {
    if d.partial.File? && reply.status == 206 then d.partial.content + Join(reply.chunks) else Join(reply.chunks)
  }

  lemma BroughtIsBaseAnd(d: Disk, reply: Reply)
    requires reply.Body? && Answers(d, reply)
    ensures Brought(d, reply) == Base(d, reply) + Join(reply.chunks)
  {
    hide ContentRangeStart, Join;
    assert "" + Join(reply.chunks) == Join(reply.chunks);
  }

  /** The first n chunks fit after base, and the next one does not. */
  ghost predicate StopsAtLimit(base: Bytes, chunks: seq<Bytes>, limit: nat, n: nat) {
    n < |chunks| && |base + Join(chunks[..n])| <= limit < |base + Join(chunks[..n + 1])|
  }

  lemma AcceptedStopsAtLimit(base: Bytes, chunks: seq<Bytes>, limit: nat)
    requires |base| <= limit && Accepted(|base|, chunks, limit) < |chunks|
    ensures StopsAtLimit(base, chunks, limit, Accepted(|base|, chunks, limit))
  {
    hide Accepted, Join;
    var n := Accepted(|base|, chunks, limit);
    var here := |base| + |Join(chunks[..n])|;
    AcceptedFits(|base|, chunks, limit, n);
    AcceptedSteps(|base|, chunks, limit, n, here);
    JoinSnoc(chunks, n);
  }

  /** A body is refused untouched, or it is too long, or it breaks off, or it is all in the partial file. */
  lemma StreamOutcome(d: Disk, artifact: Artifact, reply: Reply)
    requires reply.Body? && Offset(d) <= artifact.expectedBytes
    ensures var streamed := Stream(d, artifact, reply);
            if !Answers(d, reply) then
              streamed.disks == [] && streamed.outcome.Some? && streamed.outcome.value.BadContentRange? == (Offset(d) != 0 && reply.status == 206)
            else if |Brought(d, reply)| > artifact.expectedBytes then
              && streamed.outcome == Some(TooLong)
              && exists n: nat :: StopsAtLimit(Base(d, reply), reply.chunks, artifact.expectedBytes, n)
                             && Last(d, streamed.disks) == d.(partial := File(Base(d, reply) + Join(reply.chunks[..n])))
            else
              && streamed.outcome == (if reply.breaks then Some(BrokenOff) else None)
              && Last(d, streamed.disks) == d.(partial := File(Brought(d, reply)))
  {
    hide ContentRangeStart, Join, Accepted;
    if Answers(d, reply) {
      BroughtIsBaseAnd(d, reply);
      var base, limit := Base(d, reply), artifact.expectedBytes;
      var n := Accepted(|base|, reply.chunks, limit);
      assert reply.chunks[..|reply.chunks|] == reply.chunks;
      if |base| + |Join(reply.chunks)| <= limit {
        AcceptedWhole(|base|, reply.chunks, limit);
      } else {
        AcceptedFits(|base|, reply.chunks, limit, n);
        AcceptedStopsAtLimit(base, reply.chunks, limit);
      }
    }
  }

  /** A file of the approved size and hash. */
  predicate Approves(e: Entry, sha: Bytes -> string, artifact: Artifact) {
    e.File? && |e.content| == artifact.expectedBytes && sha(e.content) == artifact.sha256
  }

  /** What the server must deliver for an attempt on d to succeed: a body that completes the artifact, or 416
      for a partial file that is the artifact already. */
  predicate Completes(d: Disk, sha: Bytes -> string, artifact: Artifact, reply: Reply) {
    match reply
    case Body(_, _, _, breaks) => !breaks && Answers(d, reply) && Approves(File(Brought(d, reply)), sha, artifact)
    case HttpError(code) => code == 416 && Approves(d.partial, sha, artifact)
    case UrlError => false
  }

  function Forced(d: Disk, force: bool): Disk {
    if force then d.(destination := Missing).(partial := Missing) else d
  }

  lemma RequestSucceeds(d: Disk, sha: Bytes -> string, artifact: Artifact, reply: Reply)
    requires Offset(d) <= artifact.expectedBytes && !d.destination.File?
    ensures var run := RangeDownload.Request(d, sha, artifact, reply);
            && (run.outcome.None? <==> Completes(d, sha, artifact, reply))
            && var left := Last(d, run.disks);
            && (run.outcome.None? ==> Approves(left.destination, sha, artifact) && left.partial == Missing
                                      && left.manifest == Some(Listing(d.name, artifact.expectedBytes, artifact.sha256)))
            && (run.outcome.Some? ==> left.destination == d.destination && left.manifest == d.manifest)
  {
    hide Answers, Brought, Join, Accepted, ContentRangeStart;
    if reply.Body? {
      StreamOutcome(d, artifact, reply);
      StreamTouchesPartial(d, artifact, reply);
    }
  }

  lemma StreamTouchesPartial(d: Disk, artifact: Artifact, reply: Reply)
    requires reply.Body?
    ensures var left := Last(d, Stream(d, artifact, reply).disks);
            left.destination == d.destination && left.manifest == d.manifest && left.name == d.name
  {
    var n := Accepted(|Base(d, reply)|, reply.chunks, artifact.expectedBytes);
    if Stream(d, artifact, reply).disks != [] {
      WritesAt(d, Base(d, reply), reply.chunks, n, n);
    }
  }

  /** An attempt returns exactly when no link is in the way and either the destination already is the artifact or,
      there being none, an approved server completes it from what is there.  The destination is then the artifact
      and listed; on any failure neither destination nor manifest has changed beyond what --force removes. */
  lemma SucceedsExactly(d: Disk, sha: Bytes -> string, artifact: Artifact, reply: Reply, force: bool)
    ensures var run, from := Run(d, sha, artifact, reply, force), Forced(d, force);
            && (run.outcome.None? <==>
                  && !d.destination.Symlink? && !d.partial.Symlink?
                  && if from.destination.File? then Approves(from.destination, sha, artifact)
                     else
                       Offset(from) <= artifact.expectedBytes && Approved(artifact) && Completes(from, sha, artifact, reply))
            && var left := Last(d, run.disks);
            if run.outcome.None? then
              && Approves(left.destination, sha, artifact)
              && left.manifest == Some(Listing(d.name, artifact.expectedBytes, artifact.sha256))
              && (if from.destination.File? then left.destination == from.destination && left.partial == from.partial
                  else left.partial == Missing)
            else
              left.manifest == d.manifest
              && left.destination == (if run.outcome == Some(SymbolicLink) then d.destination else from.destination)
  {
    hide RangeDownload.Request, Completes;
    var from := Forced(d, force);
    if !from.destination.File? && Offset(from) <= artifact.expectedBytes {
      RequestSucceeds(from, sha, artifact, reply);
    }
    LinkIsNoOtherFailure(from, sha, artifact, reply);
  }

  lemma LinkIsNoOtherFailure(d: Disk, sha: Bytes -> string, artifact: Artifact, reply: Reply)
    ensures Fetch(d, sha, artifact, reply).outcome != Some(SymbolicLink)
  {
  }

  /** Where there is a link, a destination, too much already, or no approved origin, nobody is asked: the attempt is
      the same whatever the server would say. */
  lemma NobodyIsAsked(d: Disk, sha: Bytes -> string, artifact: Artifact, a: Reply, b: Reply, force: bool)
    requires d.destination.Symlink? || d.partial.Symlink? || Forced(d, force).destination.File?
             || Offset(Forced(d, force)) > artifact.expectedBytes || !Approved(artifact)
    ensures Run(d, sha, artifact, a, force) == Run(d, sha, artifact, b, force)
  {
  }

  /** --force removes both files, one after the other, and then goes on as if they had never been there. */
  lemma ForceStartsOver(d: Disk, sha: Bytes -> string, artifact: Artifact, reply: Reply)
    requires !d.destination.Symlink? && !d.partial.Symlink?
    ensures var forced, again := Run(d, sha, artifact, reply, true), Run(Forced(d, true), sha, artifact, reply, false);
            forced.outcome == again.outcome
            && forced.disks == [d.(destination := Missing), Forced(d, true)] + again.disks
  {
  }

  /** A refusal or an unreachable server leaves the disk alone. */
  lemma RefusalsLeaveTheDisk(d: Disk, sha: Bytes -> string, artifact: Artifact, reply: Reply)
    requires !d.destination.File?
    requires match reply
             case Body(_, _, _, _) => !Answers(d, reply)
             case HttpError(code) => code != 416 || Offset(d) != artifact.expectedBytes
             case UrlError => true
    ensures Run(d, sha, artifact, reply, false).disks == [] && Run(d, sha, artifact, reply, false).outcome.Some?
  {
    hide ContentRangeStart;
  }

  /******* Any server, any stops *******/

  /** What may stand at the destination: what was there before, nothing, or verified bytes. */
  predicate Trusted(e: Entry, before: Entry, sha: Bytes -> string, artifact: Artifact) {
    e == before || e == Missing || Verified(e, sha, artifact)
  }

  ghost predicate Sound(d: Disk, start: Disk, sha: Bytes -> string, artifact: Artifact) {
    && Trusted(d.destination, start.destination, sha, artifact)
    && (Offset(start) <= artifact.expectedBytes ==> Offset(d) <= artifact.expectedBytes)
    && (d.manifest == start.manifest || (d.manifest == Some(Listing(d.name, artifact.expectedBytes, artifact.sha256))))
    && d.name == start.name
  }

  ghost predicate AllSound(ds: seq<Disk>, start: Disk, sha: Bytes -> string, artifact: Artifact) {
    forall k :: 0 <= k < |ds| ==> Sound(ds[k], start, sha, artifact)
  }

  lemma StreamIsSound(d: Disk, sha: Bytes -> string, artifact: Artifact, reply: Reply)
    requires reply.Body? && Offset(d) <= artifact.expectedBytes
    ensures AllSound(Stream(d, artifact, reply).disks, d, sha, artifact)
  {
    var ds := Stream(d, artifact, reply).disks;
    var base := Base(d, reply);
    var n := Accepted(|base|, reply.chunks, artifact.expectedBytes);
    forall k | 0 <= k < |ds| ensures Sound(ds[k], d, sha, artifact) {
      WritesAt(d, base, reply.chunks, n, k);
      AcceptedFits(|base|, reply.chunks, artifact.expectedBytes, k);
    }
  }

  lemma PublishIsSound(d: Disk, start: Disk, sha: Bytes -> string, artifact: Artifact)
    requires Sound(d, start, sha, artifact)
    ensures AllSound(Publish(d, sha, artifact).disks, start, sha, artifact)
  {
  }

  lemma FetchIsSound(d: Disk, start: Disk, sha: Bytes -> string, artifact: Artifact, reply: Reply)
    requires Sound(d, start, sha, artifact)
    ensures AllSound(Fetch(d, sha, artifact, reply).disks, start, sha, artifact)
  {
    hide Publish, Stream;
    if !d.destination.File? && Offset(d) <= artifact.expectedBytes {
      PublishIsSound(d, start, sha, artifact);
      if reply.Body? {
        StreamIsSound(d, sha, artifact, reply);
        var ds := Stream(d, artifact, reply).disks;
        assert Sound(Last(d, ds), start, sha, artifact);
        PublishIsSound(Last(d, ds), start, sha, artifact);
      }
    }
  }

  lemma RunIsSound(d: Disk, start: Disk, sha: Bytes -> string, artifact: Artifact, reply: Reply, force: bool)
    requires Sound(d, start, sha, artifact)
    ensures AllSound(Run(d, sha, artifact, reply, force).disks, start, sha, artifact)
  {
    hide Fetch;
    FetchIsSound(d, start, sha, artifact, reply);
    var clear := d.(destination := Missing).(partial := Missing);
    FetchIsSound(clear, start, sha, artifact, reply);
  }

  /** Whatever the servers answer and wherever attempts stop: the destination is what it was, gone, or
      bytes of the approved size and hash; the partial file never outgrows the artifact. */
  lemma {:induction false} OnlyVerifiedBytesArrive(d: Disk, start: Disk, sha: Bytes -> string, artifact: Artifact, visits: seq<Visit>)
    requires Sound(d, start, sha, artifact)
    ensures Sound(AfterAll(d, sha, artifact, visits), start, sha, artifact)
    decreases |visits|
  {
    if visits != [] {
      var v := visits[0];
      RunIsSound(d, start, sha, artifact, v.reply, v.force);
      OnlyVerifiedBytesArrive(After(d, sha, artifact, v), start, sha, artifact, visits[1..]);
    }
  }

  /******* A server of true bytes *******/

  /** A 200 gives the content from its start, a 206 from where it says its range starts. */
  ghost predicate Truthful(reply: Reply, content: Bytes) {
    reply.Body? ==>
      && (reply.status == 200 ==> Join(reply.chunks) <= content)
      && (reply.status == 206 ==>
            var o := ContentRangeStart(reply.contentRange);
            o.Some? ==> o.value <= |content| && Join(reply.chunks) <= content[o.value..])
  }

  /** The partial file is the beginning of the artifact. */
  ghost predicate Begins(d: Disk, content: Bytes) {
    d.partial.File? ==> d.partial.content <= content
  }

  lemma PrefixesAppend(base: Bytes, some: Bytes, more: Bytes, content: Bytes)
    requires base <= content && some <= more && more <= content[|base|..]
    ensures base + some <= content && |base| + |more| <= |content|
  {
    assert content == base + content[|base|..];
  }

  lemma StreamBegins(d: Disk, artifact: Artifact, reply: Reply, content: Bytes)
    requires reply.Body? && Truthful(reply, content) && Begins(d, content)
    requires |content| == artifact.expectedBytes
    ensures forall k :: 0 <= k < |Stream(d, artifact, reply).disks| ==> Begins(Stream(d, artifact, reply).disks[k], content)
    ensures Stream(d, artifact, reply).disks != [] ==>
              && |Base(d, reply)| + |Join(reply.chunks)| <= |content|
              && Stream(d, artifact, reply).outcome == (if reply.breaks then Some(BrokenOff) else None)
              && Last(d, Stream(d, artifact, reply).disks) == d.(partial := File(Base(d, reply) + Join(reply.chunks)))
  {
    hide ContentRangeStart, Join, Accepted;
    var streamed := Stream(d, artifact, reply);
    var base := Base(d, reply);
    var n := Accepted(|base|, reply.chunks, artifact.expectedBytes);
    if streamed.disks != [] {
      assert base <= content && Join(reply.chunks) <= content[|base|..];
      PrefixesAppend(base, Join(reply.chunks), Join(reply.chunks), content);
      AcceptedWhole(|base|, reply.chunks, artifact.expectedBytes);
      assert reply.chunks[..n] == reply.chunks;
    }
    forall k | 0 <= k < |streamed.disks| ensures Begins(streamed.disks[k], content) {
      WritesAt(d, base, reply.chunks, n, k);
      JoinPrefix(reply.chunks, k);
      PrefixesAppend(base, Join(reply.chunks[..k]), Join(reply.chunks), content);
    }
  }

  lemma FetchBegins(d: Disk, sha: Bytes -> string, artifact: Artifact, reply: Reply, content: Bytes)
    requires Truthful(reply, content) && Begins(d, content) && |content| == artifact.expectedBytes
    ensures forall k :: 0 <= k < |Fetch(d, sha, artifact, reply).disks| ==> Begins(Fetch(d, sha, artifact, reply).disks[k], content)
  {
    hide Stream, Truthful;
    if reply.Body? {
      StreamBegins(d, artifact, reply, content);
    }
  }

  /** Over any interrupted attempts against servers of true bytes, the partial file stays a prefix of the artifact. */
  lemma {:induction false} PartialStaysAPrefix(d: Disk, sha: Bytes -> string, artifact: Artifact, visits: seq<Visit>, content: Bytes)
    requires |content| == artifact.expectedBytes && Begins(d, content)
    requires forall k :: 0 <= k < |visits| ==> Truthful(visits[k].reply, content)
    ensures Begins(AfterAll(d, sha, artifact, visits), content)
    ensures Offset(AfterAll(d, sha, artifact, visits)) <= artifact.expectedBytes
    decreases |visits|
  {
    if visits != [] {
      var v := visits[0];
      OneVisitBegins(d, sha, artifact, v, content);
      PartialStaysAPrefix(After(d, sha, artifact, v), sha, artifact, visits[1..], content);
    }
  }

  lemma OneVisitBegins(d: Disk, sha: Bytes -> string, artifact: Artifact, v: Visit, content: Bytes)
    requires |content| == artifact.expectedBytes && Begins(d, content) && Truthful(v.reply, content)
    ensures Begins(After(d, sha, artifact, v), content)
  {
    hide Fetch, Truthful;
    FetchBegins(d, sha, artifact, v.reply, content);
    FetchBegins(d.(destination := Missing).(partial := Missing), sha, artifact, v.reply, content);
  }

  /******* Progress *******/

  /** The server answers the request as asked: the whole for no range, the asked range, or 416 past the end. */
  predicate Honours(reply: Reply, d: Disk, artifact: Artifact) {
    if Offset(d) == artifact.expectedBytes then reply == HttpError(416)
    else
      && reply.Body?
      && (if Offset(d) == 0 then reply.status == 200
          else reply.status == 206 && ContentRangeStart(reply.contentRange) == Some(Offset(d)))
  }

  function Remaining(d: Disk, artifact: Artifact): int {
    artifact.expectedBytes - Offset(d)
  }

  /** No link in the way, nothing published yet, and a partial file that begins the artifact. */
  ghost predicate Underway(d: Disk, content: Bytes) {
    d.destination == Missing && !d.partial.Symlink? && Begins(d, content)
  }

  ghost predicate Published(d: Disk, artifact: Artifact, content: Bytes) {
    && d.destination == File(content) && d.partial == Missing
    && d.manifest == Some(Listing(d.name, artifact.expectedBytes, artifact.sha256))
  }

  /** An attempt that delivers bytes shortens what remains by exactly those bytes, or publishes. */
  lemma EveryByteCounts(d: Disk, sha: Bytes -> string, artifact: Artifact, reply: Reply, content: Bytes)
    requires |content| == artifact.expectedBytes && sha(content) == artifact.sha256 && Approved(artifact)
    requires Underway(d, content) && Truthful(reply, content)
    requires Honours(reply, d, artifact) && Remaining(d, artifact) > 0
    ensures var run := Run(d, sha, artifact, reply, false);
            var d' := Last(d, run.disks);
            if |Join(reply.chunks)| == Remaining(d, artifact) && !reply.breaks then
              run.outcome.None? && Published(d', artifact, content)
            else
              run.outcome.Some? && Underway(d', content)
              && Remaining(d', artifact) == Remaining(d, artifact) - |Join(reply.chunks)|
  {
    hide Stream, Join, ContentRangeStart;
    StreamBegins(d, artifact, reply, content);
    var streamed := Stream(d, artifact, reply);
    assert streamed.disks != [] && |Base(d, reply)| == Offset(d) by { HonouredIsAccepted(d, artifact, reply); }
    var d1 := Last(d, streamed.disks);
    assert Begins(d1, content);
    if |d1.partial.content| == |content| {
      assert d1.partial.content == content;
    }
  }

  lemma HonouredIsAccepted(d: Disk, artifact: Artifact, reply: Reply)
    requires Honours(reply, d, artifact) && Remaining(d, artifact) > 0
    ensures Stream(d, artifact, reply).disks != [] && |Base(d, reply)| == Offset(d)
  {
    hide ContentRangeStart;
  }

  /** A complete partial file answered 416 is published exactly when its hash is the approved one;
      otherwise nothing changes. */
  lemma CompletePartialAnswered416(d: Disk, sha: Bytes -> string, artifact: Artifact)
    requires d.destination == Missing && d.partial.File? && Approved(artifact)
    requires Offset(d) == artifact.expectedBytes
    ensures var run := Run(d, sha, artifact, HttpError(416), false);
            if sha(d.partial.content) == artifact.sha256 then
              run.outcome.None? && Published(Last(d, run.disks), artifact, d.partial.content)
            else run.outcome == Some(NotTheArtifact) && run.disks == []
  {
  }

  /** How a complete partial file with the wrong hash comes about and stays: a server sends that many other
      bytes, and 416 is all a later attempt is told. */
  lemma WrongBytesStick(d: Disk, sha: Bytes -> string, artifact: Artifact, other: Bytes)
    requires d.destination == Missing && d.partial == Missing && Approved(artifact)
    requires other != "" && |other| == artifact.expectedBytes && sha(other) != artifact.sha256
    ensures var run := Run(d, sha, artifact, Body(200, None, [other], false), false);
            var left := Last(d, run.disks);
            && run.outcome == Some(NotTheArtifact) && left == d.(partial := File(other))
            && Last(left, Run(left, sha, artifact, HttpError(416), false).disks) == left
            && Run(left, sha, artifact, HttpError(416), false).outcome == Some(NotTheArtifact)
  {
    var chunks := [other];
    assert chunks[..1] == chunks;
    JoinSnoc(chunks, 0);
    NothingJoined(chunks);
    AcceptedWhole(0, chunks, artifact.expectedBytes);
    WritesAt(d, "", chunks, 1, 1);
    assert "" + other == other;
  }

  function RunAll(d: Disk, sha: Bytes -> string, artifact: Artifact, replies: seq<Reply>): Disk
    decreases |replies|
  {
    if replies == [] then d
    else RunAll(Last(d, Run(d, sha, artifact, replies[0], false).disks), sha, artifact, replies[1..])
  }

  /** Each reply answers the request it meets truthfully and as asked, with at least a byte while any remains. */
  ghost predicate Helpful(d: Disk, sha: Bytes -> string, artifact: Artifact, replies: seq<Reply>, content: Bytes)
    decreases |replies|
  {
    replies == [] ||
    (&& Truthful(replies[0], content)
     && (d.destination == Missing ==>
           && Honours(replies[0], d, artifact)
           && (Remaining(d, artifact) > 0 ==> Join(replies[0].chunks) != ""))
     && Helpful(Last(d, Run(d, sha, artifact, replies[0], false).disks), sha, artifact, replies[1..], content))
  }

  lemma PublishedStays(d: Disk, sha: Bytes -> string, artifact: Artifact, reply: Reply, content: Bytes)
    requires |content| == artifact.expectedBytes && sha(content) == artifact.sha256
    requires Published(d, artifact, content)
    ensures Last(d, Run(d, sha, artifact, reply, false).disks) == d
  {
  }

  /** Every broken-off attempt may be retried: helpful replies, one more than the bytes that remain,
      always end with the artifact in place. */
  lemma {:induction false} RetryingFinishes(d: Disk, sha: Bytes -> string, artifact: Artifact, replies: seq<Reply>, content: Bytes)
    requires |content| == artifact.expectedBytes && sha(content) == artifact.sha256 && Approved(artifact)
    requires Published(d, artifact, content) || (Underway(d, content) && (d.partial.File? || Remaining(d, artifact) > 0))
    requires Helpful(d, sha, artifact, replies, content)
    requires Published(d, artifact, content) || |replies| > Remaining(d, artifact)
    ensures Published(RunAll(d, sha, artifact, replies), artifact, content)
    decreases |replies|
  {
    hide Run, Honours, Truthful;
    if replies != [] {
      var d' := Last(d, Run(d, sha, artifact, replies[0], false).disks);
      if Published(d, artifact, content) {
        PublishedStays(d, sha, artifact, replies[0], content);
      } else if Remaining(d, artifact) > 0 {
        EveryByteCounts(d, sha, artifact, replies[0], content);
      } else {
        assert d.partial.content == content;
        assert replies[0] == HttpError(416) by { FullMeans416(d, artifact, replies[0]); }
        CompletePartialAnswered416(d, sha, artifact);
      }
      RetryingFinishes(d', sha, artifact, replies[1..], content);
    }
  }

  lemma FullMeans416(d: Disk, artifact: Artifact, reply: Reply)
    requires Honours(reply, d, artifact) && Remaining(d, artifact) == 0
    ensures reply == HttpError(416)
  {
  }

  /******* Rerun after a stop between the rename and the manifest *******/

  /** A destination that was not there before comes from the rename alone. */
  ghost predicate Renamed(ds: seq<Disk>, sha: Bytes -> string, artifact: Artifact) {
    forall k :: 0 <= k < |ds| && ds[k].destination.File? ==>
      Verified(ds[k].destination, sha, artifact) && ds[k].partial == Missing
  }

  lemma FetchRenames(d: Disk, sha: Bytes -> string, artifact: Artifact, reply: Reply)
    requires !d.destination.File?
    ensures Renamed(Fetch(d, sha, artifact, reply).disks, sha, artifact)
  {
    if reply.Body? {
      var ds := Stream(d, artifact, reply).disks;
      var base := Base(d, reply);
      var n := Accepted(|base|, reply.chunks, artifact.expectedBytes);
      forall k | 0 <= k < |ds| ensures ds[k].destination == d.destination {
        WritesAt(d, base, reply.chunks, n, k);
      }
    }
  }

  /** Wherever an attempt that brought the destination into being stops, a rerun finishes with the manifest,
      whatever the server would answer: nothing is fetched again. */
  lemma RerunFinishesWithoutFetching(d: Disk, sha: Bytes -> string, artifact: Artifact, v: Visit, reply: Reply)
    requires !d.destination.File? && After(d, sha, artifact, v).destination.File?
    ensures var left := After(d, sha, artifact, v);
            Run(left, sha, artifact, reply, false) == Attempt([Listed(left, artifact)], None)
  {
    FetchRenames(d, sha, artifact, v.reply);
    FetchRenames(d.(destination := Missing).(partial := Missing), sha, artifact, v.reply);
  }
}
