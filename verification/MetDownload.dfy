/**
 * The snapshot download: a part file, an atomic replace, a ceiling, and retries that somebody else decides.
 * What the server does in attempt k is `server(k)`, what the clock says is `clock(k)`, and the decider's answer is
 * `decide(failure, k)`; all three are arbitrary. Every file operation may fail.
 */
module MetDownload {
  import opened Basics
  import opened Bronze
  import opened Decimals
  import opened ObjectClient

  const RETRYABLE_STATUSES: set<int> := {408, 429, 500, 502, 503, 504}

  /** One HTTP exchange: the connection fails, or there is a response whose body comes in chunks and may break off. */
  datatype Fetch =
    | OpenFails
    | Response(
        status: int,
        headers: seq<(string, string)>,
        finalUrl: string,
        chunks: seq<Chunk>,
        bodyEnds: bool,
        closes: bool)

  datatype Snapshot = Snapshot(
    requestedUrl: string,
    finalUrl: string,
    mediaType: string,
    etag: Option<string>,
    lastModified: Option<string>,
    size: nat,
    sha256: string,
    retrievedAt: Instant)

  datatype Failure = SizeLimit | Integrity | RetryableHttp | TerminalHttp | Other

  datatype AttemptResult =
    | Downloaded(snapshot: Snapshot)
    | NotModified(finalUrl: string, etag: Option<string>, lastModified: Option<string>, retrievedAt: Instant)
    | Failed(failure: Failure)

  datatype RunResult =
    | Done(result: AttemptResult)
    | Raised(failure: Failure)
    | UnlinkFailed
    | NoDirectory

  datatype Decision = Retry | Stop

  /** One question to the decider and its answer. */
  datatype Question = Question(failure: Failure, attempt: nat, answer: Decision)

  // ---- headers ----

  /** Lookup in the lower-cased copy of the headers, where a later entry replaces an earlier one. */
  function Header(headers: seq<(string, string)>, name: string): Option<string> {
    if headers == [] then None
    else if Lower(headers[|headers| - 1].0) == name then Some(headers[|headers| - 1].1)
    else Header(headers[..|headers| - 1], name)
  }

  datatype Length = Unknown | Known(n: nat) | Invalid

  function ContentLength(headers: seq<(string, string)>): Length {
    match Header(headers, "content-length")
    case None => Unknown
    case Some(text) =>
      match ParseInt(text)
      case None => Invalid
      case Some(n) => if n < 0 then Invalid else Known(n)
  }

  function BodyOf(f: Fetch): Bytes
    requires f.Response?
  {
    Flatten(f.chunks)
  }

  /** A whole 200 body: read to its end, not empty, within the ceiling, and as long as Content-Length says, if it
      says anything (section 8.6 of RFC 9110). */
  predicate Complete(f: Fetch, maxBytes: nat) {
    && f.Response? && f.status == 200 && f.bodyEnds
    && 0 < |BodyOf(f)| <= maxBytes
    && (match ContentLength(f.headers) case Unknown => true case Known(n) => |BodyOf(f)| == n case Invalid => false)
  }

  /** What one exchange leads to as long as the directory does its part: None is success. */
  function FailureOf(f: Fetch, conditional: bool, clock: Option<Instant>, maxBytes: nat): Option<Failure> {
    if f.OpenFails? || !f.closes then Some(Other)
    else if f.status == 304 && conditional then (if clock.Some? then None else Some(Other))
    else if f.status in RETRYABLE_STATUSES then Some(RetryableHttp)
    else if f.status != 200 then Some(TerminalHttp)
    else if ContentLength(f.headers).Invalid? then Some(Integrity)
    else if |BodyOf(f)| > maxBytes then Some(SizeLimit)
    else if !f.bodyEnds then Some(Other)
    else if !Complete(f, maxBytes) then Some(Integrity)
    else if clock.Some? then None else Some(Other)
  }

  /** How the downloader reports a failure: anything unforeseen counts as retryable. */
  function Reported(f: Failure): Failure { if f == Other then RetryableHttp else f }

  // ---- what the headers and the exchange mean, in the words of the headers ----

  /** Header number j is the last of this name, in letters of any case. */
  ghost predicate LastNamed(headers: seq<(string, string)>, j: int, name: string) {
    && 0 <= j < |headers| && SpellsAnyCase(headers[j].0, name)
    && forall k :: j < k < |headers| ==> !SpellsAnyCase(headers[k].0, name)
  }

  lemma {:induction false} HeaderMeaning(headers: seq<(string, string)>, name: string)
    requires HasNoCapitals(name)
    ensures Header(headers, name) == None <==> forall j :: 0 <= j < |headers| ==> !SpellsAnyCase(headers[j].0, name)
    ensures forall j :: LastNamed(headers, j, name) ==> Header(headers, name) == Some(headers[j].1)
    ensures Header(headers, name).Some? ==> exists j :: LastNamed(headers, j, name)
  {
    if headers != [] {
      var n := |headers| - 1;
      var init := headers[..n];
      LowerMeaning(headers[n].0, name);
      if Lower(headers[n].0) == name {
        assert LastNamed(headers, n, name);
      } else {
        HeaderMeaning(init, name);
        assert forall j :: 0 <= j < n ==> init[j] == headers[j];
        assert forall j :: LastNamed(init, j, name) <==> LastNamed(headers, j, name);
      }
    }
  }

  /** The last Content-Length header, if there is one, is a number n >= 0. */
  ghost predicate Declares(headers: seq<(string, string)>, n: nat) {
    exists j :: LastNamed(headers, j, "content-length") && WritesNat(headers[j].1, n)
  }

  /** There is a Content-Length header, and the last one is no such number. */
  ghost predicate DeclaresNonsense(headers: seq<(string, string)>) {
    exists j :: LastNamed(headers, j, "content-length") && forall n: nat :: !WritesNat(headers[j].1, n)
  }

  lemma KnownMeaning(headers: seq<(string, string)>, n: nat)
    ensures ContentLength(headers) == Known(n) <==> Declares(headers, n)
  {
    HeaderMeaning(headers, "content-length");
    if j :| LastNamed(headers, j, "content-length") {
      ParseNatMeaning(headers[j].1, n);
      assert ContentLength(headers) == Known(n) <==> WritesNat(headers[j].1, n);
      assert forall k :: LastNamed(headers, k, "content-length") ==> k == j;
    }
  }

  lemma ContentLengthMeaning(headers: seq<(string, string)>)
    ensures forall n :: ContentLength(headers) == Known(n) <==> Declares(headers, n)
    ensures ContentLength(headers) == Invalid <==> DeclaresNonsense(headers)
    ensures ContentLength(headers) == Unknown
       <==> forall j :: 0 <= j < |headers| ==> !SpellsAnyCase(headers[j].0, "content-length")
  {
    forall n ensures ContentLength(headers) == Known(n) <==> Declares(headers, n) {
      KnownMeaning(headers, n);
    }
    HeaderMeaning(headers, "content-length");
    if j :| LastNamed(headers, j, "content-length") {
      assert forall k :: LastNamed(headers, k, "content-length") ==> k == j;
      assert forall n: nat :: WritesNat(headers[j].1, n) <==> Declares(headers, n);
    }
  }

  /** A complete body, in the words of the headers. */
  lemma CompleteMeaning(f: Fetch, maxBytes: nat)
    ensures Complete(f, maxBytes) <==>
      && f.Response? && f.status == 200 && f.bodyEnds && 0 < |Flatten(f.chunks)| <= maxBytes
      && !DeclaresNonsense(f.headers) && forall n :: Declares(f.headers, n) ==> |Flatten(f.chunks)| == n
  {
    if f.Response? {
      ContentLengthMeaning(f.headers);
    }
  }

  /** What an exchange leads to, status by status and length by length, if the response could be opened and closed. */
  lemma FailureMeaning(f: Fetch, conditional: bool, clock: Option<Instant>, maxBytes: nat)
    requires f.Response? && f.closes && clock.Some?
    ensures var r, size := FailureOf(f, conditional, clock, maxBytes), |Flatten(f.chunks)|;
      if f.status == 304 && conditional then r == None
      else
        && (r == Some(RetryableHttp) <==> f.status in {408, 429, 500, 502, 503, 504})
        && (r == Some(TerminalHttp) <==> f.status !in {200, 408, 429, 500, 502, 503, 504})
        && (r == Some(SizeLimit) <==> f.status == 200 && !DeclaresNonsense(f.headers) && size > maxBytes)
        && (r == Some(Integrity) <==> (f.status == 200 && (DeclaresNonsense(f.headers)
              || (f.bodyEnds && size <= maxBytes && (size == 0 || exists n :: Declares(f.headers, n) && n != size)))))
        && (r == None <==> Complete(f, maxBytes))
  {
    ContentLengthMeaning(f.headers);
  }

  // ---- the directory ----

  /** The download directory. `history` lists the target after every operation on the directory, and `failures`
      counts the operations that failed. */
  class DownloadDirectory {
    var target: Option<Bytes>
    var part: Option<Bytes>
    var unlinkHasFailed: bool
    ghost var failures: nat
    ghost var history: seq<Option<Bytes>>

    constructor (target: Option<Bytes>, part: Option<Bytes>)
      ensures this.target == target && this.part == part && !unlinkHasFailed && failures == 0 && history == [target]
    {
      this.target, this.part := target, part;
      unlinkHasFailed, failures := false, 0;
      history := [target];
    }

    /** mkdir(parents=True, exist_ok=True). */
    method Make() returns (ok: bool)
      modifies this
      ensures target == old(target) && part == old(part) && history == old(history) + [target]
      ensures failures == old(failures) + if ok then 0 else 1
      ensures unlinkHasFailed == old(unlinkHasFailed)
    {
      ok := *;
      if !ok {
        failures := failures + 1;
      }
      history := history + [target];
    }

    /** unlink(missing_ok=True) on the part file. */
    method UnlinkPart() returns (ok: bool)
      modifies this
      ensures target == old(target) && history == old(history) + [target]
      ensures failures == old(failures) + if ok then 0 else 1
      ensures ok ==> part == None && unlinkHasFailed == old(unlinkHasFailed)
      ensures !ok ==> part == old(part) && unlinkHasFailed
    {
      ok := *;
      if ok {
        part := None;
      } else {
        unlinkHasFailed, failures := true, failures + 1;
      }
      history := history + [target];
    }

    method OpenPart() returns (ok: bool)
      modifies this
      ensures target == old(target) && history == old(history) + [target] && unlinkHasFailed == old(unlinkHasFailed)
      ensures failures == old(failures) + if ok then 0 else 1
      ensures part == if ok then Some([]) else old(part)
    {
      ok := *;
      if ok {
        part := Some([]);
      } else {
        failures := failures + 1;
      }
      history := history + [target];
    }

    /** A failed write may have written any part of its bytes. */
    method WritePart(b: Bytes) returns (ok: bool)
      requires part.Some?
      modifies this
      ensures target == old(target) && history == old(history) + [target] && unlinkHasFailed == old(unlinkHasFailed)
      ensures failures == old(failures) + if ok then 0 else 1
      ensures part.Some? && (ok ==> part.value == old(part).value + b)
    {
      ok := *;
      if ok {
        part := Some(part.value + b);
      } else {
        var written: int := *;
        part := Some(part.value + if 0 <= written <= |b| then b[..written] else b);
        failures := failures + 1;
      }
      history := history + [target];
    }

    /** Flushes and closes the part file. */
    method ClosePart() returns (ok: bool)
      modifies this
      ensures target == old(target) && history == old(history) + [target] && unlinkHasFailed == old(unlinkHasFailed)
      ensures failures == old(failures) + if ok then 0 else 1
      ensures ok ==> part == old(part)
    {
      ok := *;
      if !ok {
        part := *;
        failures := failures + 1;
      }
      history := history + [target];
    }

    /** part.replace(target): atomic. */
    method Replace() returns (ok: bool)
      requires part.Some?
      modifies this
      ensures history == old(history) + [target] && unlinkHasFailed == old(unlinkHasFailed)
      ensures failures == old(failures) + if ok then 0 else 1
      ensures ok ==> target == old(part) && part == None
      ensures !ok ==> target == old(target) && part == old(part)
    {
      ok := *;
      if ok {
        target, part := part, None;
      } else {
        failures := failures + 1;
      }
      history := history + [target];
    }
  }

  // ---- the downloader ----

  /** The result is the one the exchange leads to, unless an operation on the directory failed. */
  ghost predicate Judged(r: AttemptResult, directoryFailed: bool, f: Fetch, conditional: bool, clock: Option<Instant>,
                         maxBytes: nat) {
    if directoryFailed then r == Failed(Other)
    else if r.Failed? then FailureOf(f, conditional, clock, maxBytes) == Some(r.failure)
    else FailureOf(f, conditional, clock, maxBytes).None? && (r.NotModified? <==> f.status == 304)
  }

  /** From `start` on, the target was always the initial one or the complete body of this response. */
  ghost predicate OnlyCompleteBodies(history: seq<Option<Bytes>>, start: nat, initial: Option<Bytes>, f: Fetch,
                                     maxBytes: nat) {
    forall i :: start <= i < |history| ==>
      history[i] == initial || (Complete(f, maxBytes) && history[i] == Some(BodyOf(f)))
  }

  /** The initial target, or the complete body of one of the first `attempts` responses. */
  ghost predicate Legitimate(t: Option<Bytes>, initial: Option<Bytes>, server: nat -> Fetch, attempts: nat,
                             maxBytes: nat) {
    t == initial || exists k :: 1 <= k <= attempts && Complete(server(k), maxBytes) && t == Some(BodyOf(server(k)))
  }

  /** The first `n` questions were about the first `n` attempts, each of which was to be retried. */
  ghost predicate AllRetried(asked: seq<Question>, n: int) {
    n <= |asked| && forall i :: 0 <= i < n ==>
      asked[i].failure in {Integrity, RetryableHttp} && asked[i].attempt == i + 1 && asked[i].answer == Retry
  }

  /**
   * What a run asked, given how it ended: attempts 1, 2, ... once each, only about retryable failures; one more
   * attempt was made than RETRY was answered; the last failure of a run that gave up was either the last one
   * allowed, which nobody was asked about, or one that the decider stopped.
   */
  ghost predicate RetriesAccounted(asked: seq<Question>, attempts: nat, maxAttempts: nat, r: RunResult) {
    && attempts <= maxAttempts
    && (r.NoDirectory? ==> attempts == 0 && asked == [])
    && (!r.NoDirectory? ==> attempts >= 1)
    && (r.Done? || r.UnlinkFailed? || (r.Raised? && r.failure in {SizeLimit, TerminalHttp}) ==>
          AllRetried(asked, |asked|) && |asked| + 1 == attempts)
    && (r.Raised? && r.failure in {Integrity, RetryableHttp} ==>
          || (attempts == maxAttempts && AllRetried(asked, |asked|) && |asked| + 1 == attempts)
          || (attempts < maxAttempts && |asked| == attempts && AllRetried(asked, attempts - 1)
               && asked[attempts - 1] == Question(r.failure, attempts, Stop)))
  }

  class MetSnapshotDownloader {
    const url: string
    const maxAttempts: nat
    const maxBytes: nat
    const sha: Bytes -> string

    constructor (url: string, maxAttempts: nat, maxBytes: nat, sha: Bytes -> string)
      requires maxAttempts >= 1
      ensures this.url == url && this.maxAttempts == maxAttempts && this.maxBytes == maxBytes && this.sha == sha
    {
      this.url, this.maxAttempts, this.maxBytes, this.sha := url, maxAttempts, maxBytes, sha;
    }

    /** Copies the body, chunk by chunk, into the open part file while hashing it. */
    method CopyBody(dir: DownloadDirectory, f: Fetch) returns (failure: Option<Failure>, size: nat, digest: string)
      requires f.Response? && dir.part == Some([])
      modifies dir
      ensures dir.unlinkHasFailed == old(dir.unlinkHasFailed) && dir.target == old(dir.target)
      ensures old(dir.history) <= dir.history && old(dir.failures) <= dir.failures
      ensures forall i :: |old(dir.history)| <= i < |dir.history| ==> dir.history[i] == old(dir.target)
      ensures failure.None? <==> dir.failures == old(dir.failures) && f.bodyEnds && |BodyOf(f)| <= maxBytes
      ensures failure.None? ==> size == |BodyOf(f)| && digest == sha(BodyOf(f)) && dir.part == Some(BodyOf(f))
      ensures failure == Some(SizeLimit) <==> dir.failures == old(dir.failures) && |BodyOf(f)| > maxBytes
      ensures failure.Some? ==> failure.value in {SizeLimit, Other}
    {
      size, digest := 0, "";
      var absorbed: Bytes := [];
      var i := 0;
      while i < |f.chunks|
        invariant 0 <= i <= |f.chunks|
        invariant dir.unlinkHasFailed == old(dir.unlinkHasFailed) && dir.target == old(dir.target)
        invariant old(dir.history) <= dir.history && dir.failures == old(dir.failures)
        invariant forall j :: |old(dir.history)| <= j < |dir.history| ==> dir.history[j] == old(dir.target)
        invariant absorbed == Flatten(f.chunks[..i]) && size == |absorbed| <= maxBytes && dir.part == Some(absorbed)
      {
        FlattenSnoc(f.chunks, i);
        size := size + |f.chunks[i]|;
        if size > maxBytes {
          FlattenPrefixBound(f.chunks, i + 1);
          return Some(SizeLimit), size, digest;
        }
        var written := dir.WritePart(f.chunks[i]);
        if !written {
          return Some(Other), size, digest;
        }
        absorbed := absorbed + f.chunks[i];
        i := i + 1;
      }
      assert f.chunks[..i] == f.chunks;
      if !f.bodyEnds {
        return Some(Other), size, digest;
      }
      return None, size, sha(absorbed);
    }

    method ReceiveBody(dir: DownloadDirectory, f: Fetch) returns (failure: Option<Failure>, size: nat, digest: string)
      requires f.Response?
      modifies dir
      ensures dir.unlinkHasFailed == old(dir.unlinkHasFailed) && dir.target == old(dir.target)
      ensures old(dir.history) <= dir.history && old(dir.failures) <= dir.failures
      ensures forall i :: |old(dir.history)| <= i < |dir.history| ==> dir.history[i] == old(dir.target)
      ensures failure.None? <==> dir.failures == old(dir.failures) && f.bodyEnds && |BodyOf(f)| <= maxBytes
      ensures failure.None? ==> size == |BodyOf(f)| && digest == sha(BodyOf(f)) && dir.part == Some(BodyOf(f))
      ensures failure == Some(SizeLimit) <==> dir.failures == old(dir.failures) && |BodyOf(f)| > maxBytes
      ensures failure.Some? ==> failure.value in {SizeLimit, Other}
    {
      var partOpened := dir.OpenPart();
      if !partOpened {
        return Some(Other), 0, "";
      }
      failure, size, digest := CopyBody(dir, f);
      var closed := dir.ClosePart();
      if !closed {
        failure := Some(Other);
      }
    }

    /** What a result says of the exchange that led to it. */
    ghost predicate Tells(r: AttemptResult, f: Fetch, clock: Option<Instant>) {
      match r
      case Failed(_) => true
      case NotModified(finalUrl, etag, lastModified, retrievedAt) =>
        && f.Response? && finalUrl == f.finalUrl && clock == Some(retrievedAt)
        && etag == Header(f.headers, "etag") && lastModified == Header(f.headers, "last-modified")
      case Downloaded(d) =>
        && f.Response? && d.finalUrl == f.finalUrl && clock == Some(d.retrievedAt) && d.requestedUrl == url
        && d.etag == Header(f.headers, "etag") && d.lastModified == Header(f.headers, "last-modified")
        && Some(d.mediaType) in {Header(f.headers, "content-type"), Some("text/csv")}
        && (Header(f.headers, "content-type").Some? ==> Some(d.mediaType) == Header(f.headers, "content-type"))
        && d.size == |BodyOf(f)| && d.sha256 == sha(BodyOf(f))
    }

    method Attempt(dir: DownloadDirectory, conditional: bool, f: Fetch, clock: Option<Instant>)
      returns (r: AttemptResult)
      requires dir.part == None
      modifies dir
      ensures dir.unlinkHasFailed == old(dir.unlinkHasFailed)
      ensures old(dir.history) <= dir.history
      ensures OnlyCompleteBodies(dir.history, |old(dir.history)|, old(dir.target), f, maxBytes)
      ensures dir.target == old(dir.target) || (Complete(f, maxBytes) && dir.target == Some(BodyOf(f)))
      ensures r.Downloaded? ==> Complete(f, maxBytes) && dir.target == Some(BodyOf(f)) && dir.part == None
      ensures Tells(r, f, clock)
      ensures r.NotModified? ==> conditional && dir.part == None && dir.target == old(dir.target)
      ensures old(dir.failures) <= dir.failures
      ensures Judged(r, dir.failures != old(dir.failures), f, conditional, clock, maxBytes)
      // a body that is not as long as the headers say is not put in place, nor is one whose length they do not say
      ensures r.Downloaded? ==> !DeclaresNonsense(f.headers) && forall n :: Declares(f.headers, n) ==> |BodyOf(f)| == n
      ensures f.Response? && f.status == 200 && f.closes && clock.Some? && dir.failures == old(dir.failures) ==>
        DeclaresNonsense(f.headers) ==> r == Failed(Integrity) && dir.target == old(dir.target)
      ensures f.Response? && f.status == 200 && f.closes && clock.Some? && dir.failures == old(dir.failures) ==>
        f.bodyEnds && |BodyOf(f)| <= maxBytes && (exists n :: Declares(f.headers, n) && n != |BodyOf(f)|) ==>
          r == Failed(Integrity) && dir.target == old(dir.target)
    {
      CompleteMeaning(f, maxBytes);
      if f.OpenFails? {
        return Failed(Other);
      }
      if f.closes && clock.Some? {
        FailureMeaning(f, conditional, clock, maxBytes);
      }
      r := AttemptOpen(dir, conditional, f, clock);
      if !f.closes {
        r := Failed(Other);
      }
    }

    /** The part of an attempt inside the response's context manager. */
    method AttemptOpen(dir: DownloadDirectory, conditional: bool, f: Fetch, clock: Option<Instant>)
      returns (r: AttemptResult)
      requires f.Response? && dir.part == None
      modifies dir
      ensures dir.unlinkHasFailed == old(dir.unlinkHasFailed)
      ensures old(dir.history) <= dir.history
      ensures OnlyCompleteBodies(dir.history, |old(dir.history)|, old(dir.target), f, maxBytes)
      ensures dir.target == old(dir.target) || (Complete(f, maxBytes) && dir.target == Some(BodyOf(f)))
      ensures r.Downloaded? ==> Complete(f, maxBytes) && dir.target == Some(BodyOf(f)) && dir.part == None
      ensures Tells(r, f, clock)
      ensures r.NotModified? ==> conditional && dir.part == None && dir.target == old(dir.target)
      ensures old(dir.failures) <= dir.failures
      ensures Judged(r, dir.failures != old(dir.failures), f.(closes := true), conditional, clock, maxBytes)
    {
      if f.status == 304 && conditional {
        return if clock.Some? then
          NotModified(f.finalUrl, Header(f.headers, "etag"), Header(f.headers, "last-modified"), clock.value)
        else Failed(Other);
      }
      if f.status in RETRYABLE_STATUSES {
        return Failed(RetryableHttp);
      }
      if f.status != 200 {
        return Failed(TerminalHttp);
      }
      var expected := ContentLength(f.headers);
      if expected.Invalid? {
        return Failed(Integrity);
      }
      var failure, size, digest := ReceiveBody(dir, f);
      if failure.Some? {
        return Failed(failure.value);
      }
      if size == 0 {
        return Failed(Integrity);
      }
      if expected.Known? && size != expected.n {
        return Failed(Integrity);
      }
      var replaced := dir.Replace();
      if !replaced || clock.None? {
        return Failed(Other);
      }
      var mediaType := Header(f.headers, "content-type");
      return Downloaded(Snapshot(url, f.finalUrl, if mediaType.Some? then mediaType.value else "text/csv",
        Header(f.headers, "etag"), Header(f.headers, "last-modified"), size, digest, clock.value));
    }

    /** One turn of the retry loop: clear the part file, attempt, and clear it again after a failure. */
    method Turn(dir: DownloadDirectory, conditional: bool, f: Fetch, clock: Option<Instant>)
      returns (r: AttemptResult, cleaned: bool)
      modifies dir
      ensures old(dir.history) <= dir.history
      ensures OnlyCompleteBodies(dir.history, |old(dir.history)|, old(dir.target), f, maxBytes)
      ensures dir.target == old(dir.target) || (Complete(f, maxBytes) && dir.target == Some(BodyOf(f)))
      ensures old(dir.failures) <= dir.failures && (dir.unlinkHasFailed || !old(dir.unlinkHasFailed))
      ensures cleaned ==> dir.part == None
      ensures !cleaned ==> dir.unlinkHasFailed && dir.failures != old(dir.failures)
      ensures !r.Failed? ==> cleaned
      ensures r.Downloaded? ==> Complete(f, maxBytes) && dir.target == Some(BodyOf(f))
      ensures Tells(r, f, clock)
      ensures r.NotModified? ==> conditional
      ensures dir.failures == old(dir.failures) ==> Judged(r, false, f, conditional, clock, maxBytes)
    {
      r := Failed(Other);
      cleaned := dir.UnlinkPart();
      if cleaned {
        r := Attempt(dir, conditional, f, clock);
      }
      if r.Failed? {
        cleaned := dir.UnlinkPart();
      }
    }

    /** From `start` on the target was always legitimate, and it is now. */
    ghost predicate Untainted(dir: DownloadDirectory, start: nat, initial: Option<Bytes>, server: nat -> Fetch,
                              attempts: nat)
      reads dir
    {
      && start <= |dir.history|
      && (forall i :: start <= i < |dir.history| ==> Legitimate(dir.history[i], initial, server, attempts, maxBytes))
      && Legitimate(dir.target, initial, server, attempts, maxBytes)
    }

    /** Turn number `attempt`, as the run sees it. */
    method TurnOf(dir: DownloadDirectory, conditional: bool, server: nat -> Fetch, clock: nat -> Option<Instant>,
                  attempt: nat, ghost start: nat, ghost initial: Option<Bytes>)
      returns (r: AttemptResult, cleaned: bool)
      requires attempt >= 1 && Untainted(dir, start, initial, server, attempt - 1)
      modifies dir
      ensures old(dir.history) <= dir.history && Untainted(dir, start, initial, server, attempt)
      ensures old(dir.failures) <= dir.failures && (dir.unlinkHasFailed || !old(dir.unlinkHasFailed))
      ensures cleaned ==> dir.part == None
      ensures !cleaned ==> r.Failed? && dir.unlinkHasFailed && dir.failures != old(dir.failures)
      ensures r.Downloaded? ==> Complete(server(attempt), maxBytes) && dir.target == Some(BodyOf(server(attempt)))
      ensures Tells(r, server(attempt), clock(attempt))
      ensures r.NotModified? ==> conditional
      ensures dir.failures == old(dir.failures) ==>
        Judged(r, false, server(attempt), conditional, clock(attempt), maxBytes)
    {
      r, cleaned := Turn(dir, conditional, server(attempt), clock(attempt));
      forall i | start <= i < |dir.history| ensures Legitimate(dir.history[i], initial, server, attempt, maxBytes) {
        if i < |old(dir.history)| {
          assert dir.history[i] == old(dir.history)[i];
        }
      }
    }

    ghost predicate Explains(f: Fetch, conditional: bool, clock: Option<Instant>, reported: Failure) {
      var failure := FailureOf(f, conditional, clock, maxBytes);
      failure.Some? && Reported(failure.value) == reported
    }

    ghost predicate AllExplained(asked: seq<Question>, conditional: bool, server: nat -> Fetch,
                                 clock: nat -> Option<Instant>)
    {
      forall i :: 0 <= i < |asked| ==> Explains(server(i + 1), conditional, clock(i + 1), asked[i].failure)
    }

    ghost predicate AllDecided(asked: seq<Question>, decide: (Failure, nat) -> Decision) {
      forall i :: 0 <= i < |asked| ==> asked[i].answer == decide(asked[i].failure, asked[i].attempt)
    }

    lemma OneQuestionMore(asked: seq<Question>, q: Question, conditional: bool, server: nat -> Fetch,
                          clock: nat -> Option<Instant>, decide: (Failure, nat) -> Decision)
      requires AllDecided(asked, decide) && q.answer == decide(q.failure, q.attempt)
      ensures AllDecided(asked + [q], decide)
      ensures AllExplained(asked, conditional, server, clock) ==>
        Explains(server(|asked| + 1), conditional, clock(|asked| + 1), q.failure) ==>
          AllExplained(asked + [q], conditional, server, clock)
      ensures AllRetried(asked, |asked|) ==> AllRetried(asked + [q], |asked|)
    {
    }

    /** What becomes of a failed attempt: it is raised, or, if it is worth it and the decider agrees, retried. */
    method AfterFailure(failed: Failure, attempt: nat, decide: (Failure, nat) -> Decision, ghost before: seq<Question>,
                        ghost conditional: bool, ghost server: nat -> Fetch, ghost clock: nat -> Option<Instant>)
      returns (raised: Option<Failure>, ghost asked: seq<Question>)
      requires 1 <= attempt <= maxAttempts && attempt == |before| + 1
      requires AllRetried(before, |before|) && AllDecided(before, decide)
      ensures AllDecided(asked, decide)
      ensures raised.Some? ==> raised.value == Reported(failed)
      ensures raised.Some? ==> RetriesAccounted(asked, attempt, maxAttempts, Raised(raised.value))
      ensures raised.None? ==> attempt < maxAttempts && |asked| == attempt && AllRetried(asked, |asked|)
      ensures AllExplained(before, conditional, server, clock) ==>
        Explains(server(attempt), conditional, clock(attempt), Reported(failed)) ==>
          AllExplained(asked, conditional, server, clock)
    {
      asked := before;
      if failed == SizeLimit || failed == TerminalHttp {
        return Some(failed), asked;
      }
      var failure := Reported(failed);
      if attempt == maxAttempts {
        return Some(failure), asked;
      }
      var decision := decide(failure, attempt);
      OneQuestionMore(before, Question(failure, attempt, decision), conditional, server, clock, decide);
      asked := before + [Question(failure, attempt, decision)];
      return if decision == Stop then Some(failure) else None, asked;
    }

    /**
     * At every moment of a run the target is what it was at first or a complete body; when the run ends, however
     * it ends, the part file is gone unless an unlink failed; and the retries add up.
     */
    method Run(dir: DownloadDirectory, conditional: bool, server: nat -> Fetch, clock: nat -> Option<Instant>,
               decide: (Failure, nat) -> Decision)
      returns (r: RunResult, ghost attempts: nat, ghost asked: seq<Question>)
      requires maxAttempts >= 1
      modifies dir
      ensures old(dir.history) <= dir.history
      ensures Untainted(dir, |old(dir.history)|, old(dir.target), server, attempts)
      ensures !r.NoDirectory? && !dir.unlinkHasFailed ==> dir.part == None
      ensures r.UnlinkFailed? ==> dir.unlinkHasFailed
      ensures r.Done? ==> !r.result.Failed? && dir.part == None
      ensures r.Done? && r.result.Downloaded? ==>
        Complete(server(attempts), maxBytes) && dir.target == Some(BodyOf(server(attempts)))
      ensures r.Done? ==> Tells(r.result, server(attempts), clock(attempts))
      ensures r.Done? && r.result.NotModified? ==> conditional
      ensures r.Raised? ==> r.failure != Other
      ensures RetriesAccounted(asked, attempts, maxAttempts, r)
      ensures AllDecided(asked, decide)
      // as long as the directory works, every failure is that of its attempt's exchange
      ensures dir.failures == old(dir.failures) ==> AllExplained(asked, conditional, server, clock)
      ensures dir.failures == old(dir.failures) ==> r.Done? || r.Raised?
      ensures dir.failures == old(dir.failures) && r.Raised? ==>
        Explains(server(attempts), conditional, clock(attempts), r.failure)
      ensures dir.failures == old(dir.failures) && r.Done? ==>
        FailureOf(server(attempts), conditional, clock(attempts), maxBytes).None?
    {
      attempts, asked := 0, [];
      var made := dir.Make();
      if !made {
        return NoDirectory, attempts, asked;
      }
      var attempt := 1;
      r := NoDirectory;
      while attempt <= maxAttempts
        invariant 1 <= attempt <= maxAttempts
        invariant attempts == attempt - 1 == |asked| && AllRetried(asked, |asked|)
        invariant AllDecided(asked, decide)
        invariant old(dir.history) <= dir.history
        invariant Untainted(dir, |old(dir.history)|, old(dir.target), server, attempts)
        invariant old(dir.failures) <= dir.failures
        invariant dir.failures == old(dir.failures) ==> AllExplained(asked, conditional, server, clock)
      {
        attempts := attempt;
        var result, cleaned := TurnOf(dir, conditional, server, clock, attempt, |old(dir.history)|, old(dir.target));
        if !result.Failed? {
          return Done(result), attempts, asked;
        }
        if !cleaned {
          return UnlinkFailed, attempts, asked;
        }
        var raised;
        raised, asked := AfterFailure(result.failure, attempt, decide, asked, conditional, server, clock);
        if raised.Some? {
          return Raised(raised.value), attempts, asked;
        }
        attempt := attempt + 1;
      }
      assert false;  // download attempts exhausted without a result
    }

    /** An unconditional download never sees "not modified". */
    method Download(dir: DownloadDirectory, server: nat -> Fetch, clock: nat -> Option<Instant>,
                    decide: (Failure, nat) -> Decision)
      returns (r: RunResult, ghost attempts: nat)
      requires maxAttempts >= 1
      modifies dir
      ensures r.Done? ==> r.result.Downloaded? && dir.target.Some? && dir.part == None && 1 <= attempts <= maxAttempts
      ensures r.Done? ==> Complete(server(attempts), maxBytes) && dir.target == Some(BodyOf(server(attempts)))
      ensures r.Done? ==> 0 < r.result.snapshot.size == |dir.target.value| <= maxBytes
      ensures r.Done? ==> r.result.snapshot.sha256 == sha(dir.target.value) && r.result.snapshot.requestedUrl == url
      ensures r.Done? ==> Tells(r.result, server(attempts), clock(attempts))
      // if the directory works, it fails only when its last exchange does
      ensures !r.Done? && dir.failures == old(dir.failures) ==>
        1 <= attempts <= maxAttempts && FailureOf(server(attempts), false, clock(attempts), maxBytes).Some?
      // the last Content-Length header, if any, is the length of what was put in place
      ensures r.Done? ==> !DeclaresNonsense(server(attempts).headers)
      ensures r.Done? ==> forall n :: Declares(server(attempts).headers, n) ==> |dir.target.value| == n
    {
      ghost var asked;
      r, attempts, asked := Run(dir, false, server, clock, decide);
      CompleteMeaning(server(attempts), maxBytes);
      if r.Done? && r.result.NotModified? {
        r := Raised(TerminalHttp);
      }
    }
  }
}
