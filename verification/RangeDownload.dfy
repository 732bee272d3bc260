/**
 Fetching the companion artifact: a resumable download over HTTP range requests (sections 14.2, 14.4,
 15.3.7 and 15.5.17 of RFC 9110) into a partial file that is verified, then renamed into place.
 Bytes are characters, one each; SHA-256 is an arbitrary function.
 */
module RangeDownload {
  import opened EngineBase
  import opened Sequences

  type Bytes = string

  const CHUNK_BYTES: nat := 8 * 1024 * 1024
  const PROGRESS_BYTES: nat := 512 * 1024 * 1024

  datatype Artifact = Artifact(scheme: string, host: string, expectedBytes: nat, sha256: string)

  datatype Entry = Missing | File(content: Bytes) | Symlink

  /** What the runtime manifest lists. */
  datatype Listing = Listing(path: string, size: nat, sha256: string)

  datatype Disk = Disk(name: string, destination: Entry, partial: Entry, manifest: Option<Listing>)

  /** What a request meets: a body read in chunks, which may break off with an exception, or an error. */
  datatype Reply =
    | Body(status: int, contentRange: Option<string>, chunks: seq<Bytes>, breaks: bool)
    | HttpError(code: int)
    | UrlError

  datatype Failure =
    | SymbolicLink | NotTheArtifact | PartialTooLarge | WrongOrigin
    | HttpFailed(failedCode: int) | Unreachable
    | BadContentRange | BadStatus(badStatus: int) | TooLong | BrokenOff

  type Outcome = Option<Failure>    // None: the destination is returned

  /** read(CHUNK_BYTES) gives between one byte and that many until the body ends. */
  ghost predicate Readable(reply: Reply) {
    reply.Body? ==> forall k :: 0 <= k < |reply.chunks| ==> 1 <= |reply.chunks[k]| <= CHUNK_BYTES
  }

  /******* Content-Range *******/

  predicate IsDigit(c: char) {
    '0' <= c <= '9'
  }

  /** Decimal digits, single underscores allowed between them. */
  function Digits(s: string): Option<nat> {
    if s == "" || !IsDigit(s[|s| - 1]) then None
    else
      var last := s[|s| - 1] as int - '0' as int;
      if |s| == 1 then Some(last)
      else match Digits(s[..|s| - if s[|s| - 2] == '_' then 2 else 1])
        case None => None
        case Some(high) => Some(10 * high + last)
  }

  /** int() of a text that holds no minus sign. */
  function Int(s: string): Option<nat> {
    var t := Strip(s);
    Digits(if t != "" && t[0] == '+' then t[1..] else t)
  }

  function BeforeDash(s: string): string {
    if s == "" || s[0] == '-' then "" else [s[0]] + BeforeDash(s[1..])
  }

  function ContentRangeStart(header: Option<string>): Option<nat> {
    match header
    case None => None
    case Some(raw) => if "bytes " <= raw then Int(BeforeDash(raw[|"bytes "|..])) else None
  }

  function Decimal(n: nat): string {
    if n < 10 then [n as char + '0'] else Decimal(n / 10) + [(n % 10) as char + '0']
  }

  lemma {:induction false} DecimalReadsBack(n: nat)
    ensures Decimal(n) != ""
    ensures forall k :: 0 <= k < |Decimal(n)| ==> IsDigit(Decimal(n)[k])
    ensures Digits(Decimal(n)) == Some(n)
  {
    if n >= 10 {
      DecimalReadsBack(n / 10);
      var s := Decimal(n);
      assert s[..|s| - 1] == Decimal(n / 10);
      assert IsDigit(Decimal(n / 10)[|s| - 2]);
    }
  }

  lemma {:induction false} BeforeTheDash(s: string, rest: string)
    requires forall k :: 0 <= k < |s| ==> s[k] != '-'
    ensures BeforeDash(s + "-" + rest) == s
  {
    if s != "" {
      BeforeTheDash(s[1..], rest);
      assert (s + "-" + rest)[1..] == s[1..] + "-" + rest;
    }
  }

  lemma IntReadsBack(n: nat)
    ensures Int(Decimal(n)) == Some(n)
  {
    DecimalReadsBack(n);
    hide Decimal, Digits;
    assert IsDigit(Decimal(n)[0]) && IsDigit(Decimal(n)[|Decimal(n)| - 1]);
    assert Strip(Decimal(n)) == Decimal(n);
  }

  /** A range that starts at n is read as n, whatever follows the dash. */
  lemma ContentRangeReadsBack(n: nat, rest: string)
    ensures ContentRangeStart(Some("bytes " + Decimal(n) + "-" + rest)) == Some(n)
  {
    hide Decimal, BeforeDash, Int;
    var digits := Decimal(n);
    assert BeforeDash(digits + "-" + rest) == digits by {
      DecimalReadsBack(n);
      BeforeTheDash(digits, rest);
    }
    IntReadsBack(n);
    var prefix := "bytes ";
    assert prefix + digits + "-" + rest == prefix + (digits + "-" + rest);
    assert (prefix + (digits + "-" + rest))[|prefix|..] == digits + "-" + rest;
  }

  /** A character int() accepts in an unsigned numeral. */
  predicate Numeric(c: char) {
    IsDigit(c) || c == '_'
  }

  lemma {:induction false} DigitsAreNumeric(s: string)
    requires Digits(s).Some?
    ensures s != "" && IsDigit(s[0]) && IsDigit(s[|s| - 1])
    ensures forall k :: 0 <= k < |s| ==> Numeric(s[k])
    ensures forall k :: 0 < k < |s| ==> IsDigit(s[k]) || IsDigit(s[k - 1])
  {
    var n := |s|;
    if n > 1 {
      var high := s[..n - if s[n - 2] == '_' then 2 else 1];
      DigitsAreNumeric(high);
      assert forall k :: 0 <= k < |high| ==> s[k] == high[k];
    }
  }

  lemma DigitsBeforeLast(high: string, t: string, cut: nat)
    requires 1 <= cut < |t| && IsDigit(t[|t| - 1]) && cut == (if t[|t| - 2] == '_' then 2 else 1)
    requires t[..|t| - cut] == high && Digits(high).Some?
    ensures Digits(t) == Some(10 * Digits(high).value + (t[|t| - 1] as int - '0' as int))
  {
  }

  lemma DigitAfterDigits(s: string, d: char)
    requires Digits(s).Some? && s != "" && s[|s| - 1] != '_' && IsDigit(d)
    ensures Digits(s + [d]) == Some(10 * Digits(s).value + (d as int - '0' as int))
  {
    hide Digits, IsDigit;
    var t := s + [d];
    assert t[|t| - 2] == s[|s| - 1] && t[|t| - 1] == d && t[..|t| - 1] == s;
    DigitsBeforeLast(s, t, 1);
  }

  lemma DigitAfterUnderscore(s: string, d: char)
    requires Digits(s).Some? && IsDigit(d)
    ensures Digits(s + ['_', d]) == Some(10 * Digits(s).value + (d as int - '0' as int))
  {
    DigitsAreNumeric(s);
    hide Digits, IsDigit;
    var t := s + ['_', d];
    assert t[|t| - 2] == '_' && t[|t| - 1] == d && t[..|t| - 2] == s;
    DigitsBeforeLast(s, t, 2);
  }

  /** Appending a digit multiplies by ten and adds; an underscore before it counts for nothing. */
  lemma DigitsByPlace(s: string, d: char, underscore: bool)
    requires Digits(s).Some? && IsDigit(d)
    ensures Digits(s + (if underscore then ['_', d] else [d])) == Some(10 * Digits(s).value + (d as int - '0' as int))
  {
    hide Digits;
    DigitsAreNumeric(s);
    hide IsDigit;
    if underscore {
      DigitAfterUnderscore(s, d);
    } else {
      NoUnderscore(s[|s| - 1]);
      DigitAfterDigits(s, d);
    }
  }

  lemma NoUnderscore(c: char)
    requires IsDigit(c)
    ensures c != '_'
  {
  }

  /** Nothing but a bytes range whose start is a numeral is read as a start. */
  lemma OnlyNumeralsAreStarts(header: Option<string>)
    requires ContentRangeStart(header).Some?
    ensures header.Some? && "bytes " <= header.value
    ensures var start := Strip(BeforeDash(header.value[6..]));
            && start != "" && (IsDigit(start[0]) || start[0] == '+') && IsDigit(start[|start| - 1])
            && forall k :: 1 <= k < |start| ==> Numeric(start[k])
  {
    var start := Strip(BeforeDash(header.value[6..]));
    DigitsAreNumeric(if start != "" && start[0] == '+' then start[1..] else start);
    if start[0] == '+' {
      assert forall k :: 1 <= k < |start| ==> start[k] == start[1..][k - 1];
    }
  }

  /******* One attempt, as the sequence of disks it leaves behind it *******/

  /** How many leading chunks fit under the limit. */
  function Accepted(written: nat, chunks: seq<Bytes>, limit: nat): (n: nat)
    ensures n <= |chunks|
    decreases |chunks|
  {
    if chunks == [] || written + |chunks[0]| > limit then 0
    else 1 + Accepted(written + |chunks[0]|, chunks[1..], limit)
  }

  predicate Verified(e: Entry, sha: Bytes -> string, artifact: Artifact) {
    e.File? && |e.content| == artifact.expectedBytes && sha(e.content) == artifact.sha256
  }

  function Offset(d: Disk): nat {
    if d.partial.File? then |d.partial.content| else 0
  }

  /** The disks passed through, in order, after the one the attempt began with. */
  datatype Attempt = Attempt(disks: seq<Disk>, outcome: Outcome)

  function Listed(d: Disk, artifact: Artifact): Disk {
    d.(manifest := Some(Listing(d.name, artifact.expectedBytes, artifact.sha256)))
  }

  /** Verification, the rename, the manifest. */
  function Publish(d: Disk, sha: Bytes -> string, artifact: Artifact): Attempt {
    if !Verified(d.partial, sha, artifact) then Attempt([], Some(NotTheArtifact))
    else
      var renamed := d.(destination := d.partial, partial := Missing);
      Attempt([renamed, Listed(renamed, artifact)], None)
  }

  /** The disks while n chunks are written after base: the opened file, then one disk per chunk. */
  function Writes(d: Disk, base: Bytes, chunks: seq<Bytes>, n: nat): (ds: seq<Disk>)
    requires n <= |chunks|
    ensures |ds| == n + 1 && ds[n] == d.(partial := File(base + Join(chunks[..n])))
  {
    if n == 0 then
      assert base + Join(chunks[..0]) == base;
      [d.(partial := File(base))]
    else Writes(d, base, chunks, n - 1) + [d.(partial := File(base + Join(chunks[..n])))]
  }

  function Resumes(reply: Reply, offset: nat): bool
    requires reply.Body?
  {
    offset != 0 && reply.status == 206
  }

  function Base(d: Disk, reply: Reply): Bytes
    requires reply.Body?
  {
    if Resumes(reply, Offset(d)) && d.partial.File? then d.partial.content else ""
  }

  function Stream(d: Disk, artifact: Artifact, reply: Reply): Attempt
    requires reply.Body?
  {
    if Resumes(reply, Offset(d)) && ContentRangeStart(reply.contentRange) != Some(Offset(d)) then
      Attempt([], Some(BadContentRange))
    else if !Resumes(reply, Offset(d)) && reply.status != 200 then
      Attempt([], Some(BadStatus(reply.status)))
    else
      var n := Accepted(|Base(d, reply)|, reply.chunks, artifact.expectedBytes);
      Attempt(
        Writes(d, Base(d, reply), reply.chunks, n),
        if n < |reply.chunks| then Some(TooLong) else if reply.breaks then Some(BrokenOff) else None)
  }

  function Last(d: Disk, ds: seq<Disk>): Disk {
    if ds == [] then d else ds[|ds| - 1]
  }

  function Then(first: Attempt, next: Attempt): Attempt {
    if first.outcome.Some? then first else Attempt(first.disks + next.disks, next.outcome)
  }

  function Request(d: Disk, sha: Bytes -> string, artifact: Artifact, reply: Reply): Attempt {
    match reply
    case Body(_, _, _, _) =>
      var streamed := Stream(d, artifact, reply);
      Then(streamed, Publish(Last(d, streamed.disks), sha, artifact))
    case HttpError(code) =>
      if code == 416 && Offset(d) == artifact.expectedBytes then Publish(d, sha, artifact)
      else Attempt([], Some(HttpFailed(code)))
    case UrlError => Attempt([], Some(Unreachable))
  }

  function Fetch(d: Disk, sha: Bytes -> string, artifact: Artifact, reply: Reply): Attempt {
    if d.destination.File? then
      if Verified(d.destination, sha, artifact) then Attempt([Listed(d, artifact)], None)
      else Attempt([], Some(NotTheArtifact))
    else if Offset(d) > artifact.expectedBytes then Attempt([], Some(PartialTooLarge))
    else if artifact.scheme != "https" || artifact.host != "storage.googleapis.com" then Attempt([], Some(WrongOrigin))
    else Request(d, sha, artifact, reply)
  }

  function Run(d: Disk, sha: Bytes -> string, artifact: Artifact, reply: Reply, force: bool): Attempt {
    if d.destination.Symlink? || d.partial.Symlink? then Attempt([], Some(SymbolicLink))
    else if force then
      var unlinked := d.(destination := Missing);
      var clear := unlinked.(partial := Missing);
      Then(Attempt([unlinked, clear], None), Fetch(clear, sha, artifact, reply))
    else Fetch(d, sha, artifact, reply)
  }

  /******* The program *******/

  lemma AcceptedSteps(written: nat, chunks: seq<Bytes>, limit: nat, i: nat, here: nat)
    requires i < |chunks|
    requires Accepted(written, chunks, limit) == i + Accepted(here, chunks[i..], limit)
    ensures here + |chunks[i]| > limit ==> Accepted(written, chunks, limit) == i
    ensures here + |chunks[i]| <= limit ==>
              Accepted(written, chunks, limit) == i + 1 + Accepted(here + |chunks[i]|, chunks[i + 1..], limit)
  {
    assert chunks[i..][1..] == chunks[i + 1..];
  }

  lemma NothingWritten(d: Disk, base: Bytes, chunks: seq<Bytes>)
    ensures Writes(d, base, chunks, 0) == [d.(partial := File(base))]
  {
  }

  lemma WritesSnoc(d: Disk, base: Bytes, chunks: seq<Bytes>, n: nat)
    requires 0 < n <= |chunks|
    ensures Writes(d, base, chunks, n)
         == Writes(d, base, chunks, n - 1) + [d.(partial := File(base + Join(chunks[..n])))]
  {
  }

  /** reports holds the count printed at each line: one line for each multiple of PROGRESS_BYTES in
      (start, written], printed by the chunk that reached it. */
  ghost predicate Reported(reports: seq<nat>, start: nat, written: nat) {
    && |reports| == written / PROGRESS_BYTES - start / PROGRESS_BYTES
    && forall k :: 0 <= k < |reports| ==>
         var boundary := (start / PROGRESS_BYTES + 1 + k) * PROGRESS_BYTES;
         boundary <= reports[k] < boundary + CHUNK_BYTES && reports[k] <= written
  }

  lemma NothingReported(start: nat)
    ensures Reported([], start, start)
  {
  }

  lemma ReportedStep(reports: seq<nat>, start: nat, written: nat, more: nat)
    requires Reported(reports, start, written) && start <= written && more <= CHUNK_BYTES
    ensures var now := written + more;
            if now >= (written / PROGRESS_BYTES + 1) * PROGRESS_BYTES then
              now / PROGRESS_BYTES == written / PROGRESS_BYTES + 1 && Reported(reports + [now], start, now)
            else now / PROGRESS_BYTES == written / PROGRESS_BYTES && Reported(reports, start, now)
  {
  }

  class Downloader {
    const name: string
    var destination: Entry
    var partial: Entry
    var manifest: Option<Listing>
    ghost var history: seq<Disk>    // the disk after each step

    constructor (name: string, destination: Entry, partial: Entry, manifest: Option<Listing>)
      ensures View() == Disk(name, destination, partial, manifest) && history == []
    {
      this.name, this.destination, this.partial, this.manifest := name, destination, partial, manifest;
      history := [];
    }

    function View(): Disk
      reads this
    {
      Disk(name, destination, partial, manifest)
    }

    /** The with block: the partial file is opened on base, then the chunks are appended. */
    method ReceiveChunks(artifact: Artifact, reply: Reply, base: Bytes) returns (outcome: Outcome, reports: seq<nat>)
      requires reply.Body? && Readable(reply)
      modifies this`partial, this`history
      ensures var n := Accepted(|base|, reply.chunks, artifact.expectedBytes);
              && partial == File(base + Join(reply.chunks[..n]))
              && history == old(history) + Writes(old(View()), base, reply.chunks, n)
              && outcome == (if n < |reply.chunks| then Some(TooLong) else if reply.breaks then Some(BrokenOff) else None)
      ensures Reported(reports, |base|, Offset(View()))
    {
      hide Join, Accepted, Reported, Writes;
      ghost var d := View();
      partial := File(base);
      history := history + [View()];
      reports := [];
      ghost var n := Accepted(|base|, reply.chunks, artifact.expectedBytes);
      var written := |base|;
      var nextProgress := (written / PROGRESS_BYTES + 1) * PROGRESS_BYTES;
      NothingReported(|base|);
      NothingJoined(reply.chunks);
      NothingWritten(d, base, reply.chunks);
      var i := 0;
      while i < |reply.chunks|
        invariant 0 <= i <= n <= |reply.chunks|
        invariant partial == File(base + Join(reply.chunks[..i])) && written == |partial.content|
        invariant View() == d.(partial := partial) && history == old(history) + Writes(d, base, reply.chunks, i)
        invariant n == i + Accepted(written, reply.chunks[i..], artifact.expectedBytes)
        invariant nextProgress == (written / PROGRESS_BYTES + 1) * PROGRESS_BYTES
        invariant Reported(reports, |base|, written)
      {
        var chunk := reply.chunks[i];
        AcceptedSteps(|base|, reply.chunks, artifact.expectedBytes, i, written);
        JoinSnoc(reply.chunks, i);
        ReportedStep(reports, |base|, written, |chunk|);
        if written + |chunk| > artifact.expectedBytes {
          return Some(TooLong), reports;
        }
        written := written + |chunk|;
        partial := File(partial.content + chunk);
        history := history + [View()];
        if written >= nextProgress {
          reports := reports + [written];
          nextProgress := nextProgress + PROGRESS_BYTES;
        }
        i := i + 1;
        WritesSnoc(d, base, reply.chunks, i);
      }
      outcome := if reply.breaks then Some(BrokenOff) else None;
    }

    method StreamResponse(artifact: Artifact, reply: Reply, offset: nat) returns (outcome: Outcome, reports: seq<nat>)
      requires reply.Body? && Readable(reply)
      requires offset == Offset(View())
      modifies this`partial, this`history
      ensures history == old(history) + Stream(old(View()), artifact, reply).disks
      ensures View() == Last(old(View()), Stream(old(View()), artifact, reply).disks)
      ensures outcome == Stream(old(View()), artifact, reply).outcome
      ensures if Stream(old(View()), artifact, reply).disks == [] then reports == []
              else Reported(reports, |Base(old(View()), reply)|, Offset(View()))
    {
      hide Join, Accepted, Reported, ContentRangeStart;
      if offset != 0 && reply.status == 206 {
        if ContentRangeStart(reply.contentRange) != Some(offset) {
          return Some(BadContentRange), [];
        }
        outcome, reports := ReceiveChunks(artifact, reply, partial.content);
      } else if reply.status == 200 {
        outcome, reports := ReceiveChunks(artifact, reply, "");
      } else {
        return Some(BadStatus(reply.status)), [];
      }
    }

    method Download(sha: Bytes -> string, artifact: Artifact, reply: Reply, force: bool)
      returns (outcome: Outcome, reports: seq<nat>)
      requires Readable(reply)
      modifies this`destination, this`partial, this`manifest, this`history
      ensures history == old(history) + Run(old(View()), sha, artifact, reply, force).disks
      ensures View() == Last(old(View()), Run(old(View()), sha, artifact, reply, force).disks)
      ensures outcome == Run(old(View()), sha, artifact, reply, force).outcome
      ensures outcome.None? ==>
                && destination.File? && |destination.content| == artifact.expectedBytes
                && sha(destination.content) == artifact.sha256
                && manifest == Some(Listing(name, artifact.expectedBytes, artifact.sha256))
    {
      hide Fetch;
      reports := [];
      if destination.Symlink? || partial.Symlink? {
        return Some(SymbolicLink), [];
      }
      if force {
        destination := Missing;
        history := history + [View()];
        partial := Missing;
        history := history + [View()];
      }
      outcome, reports := FetchAndPublish(sha, artifact, reply);
    }

    /** What download does once links are refused and forced copies are gone. */
    method FetchAndPublish(sha: Bytes -> string, artifact: Artifact, reply: Reply)
      returns (outcome: Outcome, reports: seq<nat>)
      requires Readable(reply) && !destination.Symlink? && !partial.Symlink?
      modifies this`destination, this`partial, this`manifest, this`history
      ensures history == old(history) + Fetch(old(View()), sha, artifact, reply).disks
      ensures View() == Last(old(View()), Fetch(old(View()), sha, artifact, reply).disks)
      ensures outcome == Fetch(old(View()), sha, artifact, reply).outcome
      ensures outcome.None? ==>
                && destination.File? && |destination.content| == artifact.expectedBytes
                && sha(destination.content) == artifact.sha256
                && manifest == Some(Listing(name, artifact.expectedBytes, artifact.sha256))
    {
      hide Stream, Reported;
      reports := [];
      if destination.File? {
        if !Verified(destination, sha, artifact) {
          return Some(NotTheArtifact), [];
        }
        manifest := Some(Listing(name, artifact.expectedBytes, artifact.sha256));
        history := history + [View()];
        return None, [];
      }
      var offset := Offset(View());
      if offset > artifact.expectedBytes {
        return Some(PartialTooLarge), [];
      }
      if artifact.scheme != "https" || artifact.host != "storage.googleapis.com" {
        return Some(WrongOrigin), [];
      }
      match reply
      case UrlError =>
        return Some(Unreachable), [];
      case HttpError(code) =>
        if !(code == 416 && offset == artifact.expectedBytes) {
          return Some(HttpFailed(code)), [];
        }
        outcome := MoveIntoPlace(sha, artifact);
      case Body(_, _, _, _) =>
        outcome, reports := StreamResponse(artifact, reply, offset);
        if outcome.None? {
          outcome := MoveIntoPlace(sha, artifact);
        }
    }

    method MoveIntoPlace(sha: Bytes -> string, artifact: Artifact) returns (outcome: Outcome)
      modifies this`destination, this`partial, this`manifest, this`history
      ensures history == old(history) + Publish(old(View()), sha, artifact).disks
      ensures View() == Last(old(View()), Publish(old(View()), sha, artifact).disks)
      ensures outcome == Publish(old(View()), sha, artifact).outcome
      ensures outcome.None? ==>
                && destination.File? && |destination.content| == artifact.expectedBytes
                && sha(destination.content) == artifact.sha256
                && manifest == Some(Listing(name, artifact.expectedBytes, artifact.sha256))
    {
      if !Verified(partial, sha, artifact) {
        return Some(NotTheArtifact);
      }
      destination, partial := partial, Missing;
      history := history + [View()];
      manifest := Some(Listing(name, artifact.expectedBytes, artifact.sha256));
      history := history + [View()];
      return None;
    }
  }
}
