/** store_bundle: snapshot the artifact, check the keys, then PUT artifact, evidence and completion marker in order. */
module BronzeStore {
  import opened Basics
  import opened Bronze
  import opened ObjectKeys
  import opened Ndjson
  import opened PutMachine
  import opened Protocol
  import opened ProtocolInvariant
  import opened ProtocolTheorems
  import opened CallLog
  import opened ObjectClient
  import opened ConditionalClient

  datatype Failure =
    | UnsafePrefix
    | ArtifactNotFound
    | ArtifactStaging
    | ArtifactIntegrity
    | SinglePutSizeLimit
    | ObjectAlreadyExists
    | ObjectStoreFailure
    | ManifestSerialization
    | EvidenceStaging

  /** The failures that a run can still meet once its artifact is staged. */
  const LATER_FAILURES: set<Failure> :=
    {SinglePutSizeLimit, ObjectAlreadyExists, ObjectStoreFailure, ManifestSerialization, EvidenceStaging}

  datatype Result<+T> = Ok(value: T) | Err(failure: Failure)

  /** A file read in chunks of any size; if it is not intact the read after the last chunk raises OSError. */
  datatype ChunkedFile = ChunkedFile(chunks: seq<Chunk>, intact: bool) {
    function Content(): Bytes { Flatten(chunks) }
  }

  /** What an iterator of evidence does after its last item. */
  datatype Ending = Exhausted | RaisesOSError | Raises

  datatype EvidenceSource = EvidenceSource(items: seq<Evidence>, ending: Ending)

  datatype Snapshot = Snapshot(size: nat, sha256: string)

  /** The four checks on an item of evidence. */
  predicate ValidEvidence(a: Artifact, e: Evidence) {
    && e.provenance.source == a.source
    && e.provenance.runId == a.runId
    && e.provenance.contractVersion == a.contractVersion
    && e.provenance.outcome == e.result.outcome
  }

  predicate AllValid(a: Artifact, items: seq<Evidence>) { forall i :: 0 <= i < |items| ==> ValidEvidence(a, items[i]) }

  /** Since `from` the run has asked for this key and was given this answer. */
  ghost predicate Told(events: seq<Event>, from: nat, w: nat, key: string, answer: HeadAnswer) {
    exists i :: from <= i < |events| && events[i] == Head(w, key, answer)
  }

  /** On whatever key. */
  ghost predicate EverTold(events: seq<Event>, from: nat, w: nat, answer: HeadAnswer) {
    exists key :: Told(events, from, w, key, answer)
  }

  /** Since `from` the run has done nothing but ask, and nothing was there. */
  ghost predicate OnlyMissing(events: seq<Event>, from: nat, w: nat) {
    forall i :: from <= i < |events| && IsBy(events[i], w) ==> events[i].Head? && events[i].answer.Missing?
  }

  lemma ToldOnce(before: seq<Event>, after: seq<Event>, from: nat, w: nat, key: string, answer: HeadAnswer)
    requires before <= after && from <= |before| < |after| && OnlyMissing(before, from, w)
    requires after[|after| - 1] == Head(w, key, answer)
    requires forall i :: |before| <= i < |after| - 1 ==> !IsBy(after[i], w)
    ensures Told(after, from, w, key, answer)
    ensures forall k :: Told(before, from, w, k, Missing) ==> Told(after, from, w, k, Missing)
    ensures answer.Missing? ==> OnlyMissing(after, from, w)
    ensures EverTold(after, from, w, Seen) <==> answer.Seen?
    ensures EverTold(after, from, w, Broken) <==> answer.Broken?
  {
    assert Told(after, from, w, key, answer);
    forall k | Told(before, from, w, k, Missing) ensures Told(after, from, w, k, Missing) {
      var i :| from <= i < |before| && before[i] == Head(w, k, Missing);
      assert after[i] == before[i];
    }
    assert forall i :: from <= i < |before| ==> after[i] == before[i];
  }

  /** How the error that stopped a run is reported to the caller. */
  predicate FailedWith(wr: Writer, failure: Failure) {
    wr.phase.Failed? &&
    match wr.phase.error
    case AlreadyPresent => failure == ObjectAlreadyExists
    case Collision => failure == ObjectAlreadyExists
    case StoreFailure => failure == ObjectStoreFailure
    case TooLarge => failure == SinglePutSizeLimit
    case Aborted => failure in {SinglePutSizeLimit, ManifestSerialization, EvidenceStaging}
  }

  datatype EvidenceSummary = EvidenceSummary(stored: StoredObject, total: nat, counts: Counts)

  class MinioBronzeArtifactStore {
    const client: MinioConditionalObjectClient
    const store: ObjectStore
    const cfg: Config
    const prefix: string

    ghost predicate Valid() reads store {
      client.store == store && store.cfg == cfg && store.Valid() && StandardKeys(cfg)
    }

    constructor (client: MinioConditionalObjectClient, prefix: string)
      requires client.store.Valid() && StandardKeys(client.store.cfg)
      ensures this.client == client && store == client.store
      ensures cfg == client.store.cfg && this.prefix == prefix && Valid()
    {
      this.client := client;
      store := client.store;
      cfg := client.store.cfg;
      this.prefix := prefix;
    }

    function TargetFor(a: Artifact): (target: Option<Target>)
      ensures target.Some? <==> cfg.keys(a, prefix).Some?
      ensures target.Some? ==>
        && target.value.artifactUri == "s3://" + cfg.bucket + "/" + cfg.keys(a, prefix).value.artifact
        && target.value.evidenceUri == "s3://" + cfg.bucket + "/" + cfg.keys(a, prefix).value.evidence
        && target.value.completionUri == "s3://" + cfg.bucket + "/" + cfg.keys(a, prefix).value.completion
    {
      match cfg.keys(a, prefix)
      case None => None
      case Some(k) => Some(Target(Uri(cfg, k.artifact), Uri(cfg, k.evidence), Uri(cfg, k.completion)))
    }

    /** Copies the file to the spool while hashing it. However the file is cut into chunks, the size error is raised
        exactly when the content exceeds the ceiling, and never more than the ceiling is staged. */
    method SnapshotArtifact(a: Artifact, file: ChunkedFile, snapshot: ByteStream) returns (r: Result<Snapshot>)
      requires snapshot.content == [] && snapshot.position == 0
      modifies snapshot
      ensures |snapshot.content| <= cfg.maxBytes && snapshot.Valid()
      ensures r == Err(SinglePutSizeLimit) <==> |file.Content()| > cfg.maxBytes
      ensures r == Err(ArtifactStaging) <==> |file.Content()| <= cfg.maxBytes && !file.intact
      ensures r == Err(ArtifactIntegrity) <==> (|file.Content()| <= cfg.maxBytes && file.intact
        && a.expectedSha256.Some? && a.expectedSha256.value != cfg.sha(file.Content()))
      ensures r.Err? ==> r.failure in {SinglePutSizeLimit, ArtifactStaging, ArtifactIntegrity}
      ensures r.Ok? ==>
        snapshot.content == file.Content() && r.value == Snapshot(|file.Content()|, cfg.sha(file.Content()))
    {
      var absorbed: Bytes := [];
      var sizeBytes := 0;
      var i := 0;
      while i < |file.chunks|
        invariant 0 <= i <= |file.chunks|
        invariant absorbed == snapshot.content == Flatten(file.chunks[..i])
        invariant sizeBytes == |snapshot.content| <= cfg.maxBytes
        invariant snapshot.position == |snapshot.content|
      {
        FlattenSnoc(file.chunks, i);
        sizeBytes := sizeBytes + |file.chunks[i]|;
        if sizeBytes > cfg.maxBytes {
          FlattenPrefixBound(file.chunks, i + 1);
          return Err(SinglePutSizeLimit);
        }
        absorbed := absorbed + file.chunks[i];
        snapshot.Append(file.chunks[i]);
        i := i + 1;
      }
      assert file.chunks[..i] == file.chunks;
      if !file.intact {
        return Err(ArtifactStaging);
      }
      var sha := cfg.sha(absorbed);
      if a.expectedSha256.Some? && sha != a.expectedSha256.value {
        return Err(ArtifactIntegrity);
      }
      return Ok(Snapshot(sizeBytes, sha));
    }

    /** HEAD on one of the three keys. */
    method ProbeKey(w: nat, keys: Keys, ghost from: nat, ghost wr: Writer, slot: Slot) returns (stat: StatResult)
      requires Valid() && w in store.now.writers && store.now.writers[w] == wr.(phase := Checking(slot))
      requires keys == wr.plan.job.keys && from <= |store.events| && OnlyMissing(store.events, from, w)
      modifies store
      ensures Valid() && old(store.events) <= store.events && w in store.now.writers
      ensures stat.NoSuchObject? ==>
        && OnlyMissing(store.events, from, w)
        && store.now.writers[w] == if slot < 2 then wr.(phase := Checking(slot + 1)) else Begin(cfg, wr, ARTIFACT)
      ensures stat.StatError? ==> store.now.writers[w] == wr.(phase := Failed(0, 0, StoreFailure))
      ensures stat.Metadata? ==> store.now.writers[w] == wr.(phase := Failed(0, 0, AlreadyPresent))
      ensures var key := if slot == 0 then keys.artifact else if slot == 1 then keys.evidence else keys.completion;
        Told(store.events, from, w, key, AnswerOf(stat))
      ensures forall k :: Told(old(store.events), from, w, k, Missing) ==> Told(store.events, from, w, k, Missing)
      ensures EverTold(store.events, from, w, Seen) <==> stat.Metadata?
      ensures EverTold(store.events, from, w, Broken) <==> stat.StatError?
    {
      var key := if slot == 0 then keys.artifact else if slot == 1 then keys.evidence else keys.completion;
      stat := store.StatObject(w, key);
      ToldOnce(old(store.events), store.events, from, w, key, AnswerOf(stat));
    }

    /** HEAD on the three keys in turn; any object found there stops the run before it sends anything. */
    method AssertBundleAbsent(w: nat, keys: Keys) returns (failure: Option<Failure>)
      requires Valid() && w in store.now.writers && store.now.writers[w].phase == Checking(0)
      requires keys == store.now.writers[w].plan.job.keys
      modifies store
      ensures Valid() && old(store.events) <= store.events && w in store.now.writers
      ensures failure.Some? ==> FailedWith(store.now.writers[w], failure.value) && store.now.writers[w].phase.begun == 0
      ensures failure.None? ==> store.now.writers[w] == Begin(cfg, old(store.now.writers[w]), ARTIFACT)
      // it passes only when HEADs on all three keys found nothing
      ensures failure.None? ==> Told(store.events, |old(store.events)|, w, keys.artifact, Missing)
      ensures failure.None? ==> Told(store.events, |old(store.events)|, w, keys.evidence, Missing)
      ensures failure.None? ==> Told(store.events, |old(store.events)|, w, keys.completion, Missing)
      // an object at any of them is that error, a HEAD that fails the other, and there are no more errors
      ensures EverTold(store.events, |old(store.events)|, w, Seen) <==> failure == Some(ObjectAlreadyExists)
      ensures EverTold(store.events, |old(store.events)|, w, Broken) <==> failure == Some(ObjectStoreFailure)
      ensures failure.Some? ==> failure.value in {ObjectAlreadyExists, ObjectStoreFailure}
    {
      ghost var wr, from := store.now.writers[w], |store.events|;
      var slot := 0;
      while slot < 3
        invariant 0 <= slot <= 3
        invariant Valid() && old(store.events) <= store.events && w in store.now.writers
        invariant store.now.writers[w] == if slot < 3 then wr.(phase := Checking(slot)) else Begin(cfg, wr, ARTIFACT)
        invariant slot > ARTIFACT ==> Told(store.events, from, w, keys.artifact, Missing)
        invariant slot > EVIDENCE ==> Told(store.events, from, w, keys.evidence, Missing)
        invariant slot > MARKER ==> Told(store.events, from, w, keys.completion, Missing)
        invariant OnlyMissing(store.events, from, w)
        invariant !EverTold(store.events, from, w, Seen) && !EverTold(store.events, from, w, Broken)
      {
        var stat := ProbeKey(w, keys, from, wr, slot);
        if stat.StatError? {
          return Some(ObjectStoreFailure);
        }
        if stat.Metadata? {
          return Some(ObjectAlreadyExists);
        }
        slot := slot + 1;
      }
      return None;
    }

    /** Run `w` stands before PUT call `slot`; afterwards it stands behind it, or has failed in it. */
    method PutIfAbsent(w: nat, ghost p: Plan, ghost slot: Slot, key: string, data: ByteStream, length: nat, sha: string)
      returns (failure: Option<Failure>)
      requires Valid() && data.Valid() && w in store.now.writers
      requires store.now.writers[w] == Begin(cfg, Writer(p, Staging), slot)
      requires key == KeyOf(p.job, slot) && data.content[data.position..] == PayloadOf(cfg, p, slot)
      requires length == |PayloadOf(cfg, p, slot)| && sha == cfg.sha(PayloadOf(cfg, p, slot))
      modifies store, data`position
      ensures Valid() && old(store.events) <= store.events && w in store.now.writers
      ensures failure.None? ==> store.now.writers[w] == Settle(cfg, Writer(p, Staging), slot, Stored)
      ensures failure == Some(SinglePutSizeLimit) <==> length > cfg.maxBytes
      ensures failure.Some? ==>
        FailedWith(store.now.writers[w], failure.value) && store.now.writers[w].phase.begun <= slot + 1
      ensures failure.Some? ==> failure.value in {SinglePutSizeLimit, ObjectAlreadyExists, ObjectStoreFailure}
      ensures failure == Some(ObjectAlreadyExists) ==> TakenByAnother(store.now, key, w, slot)
      // the error is the one that the answers amount to
      ensures length <= cfg.maxBytes ==>
        var step := Play(cfg.attempts, LogOf(cfg, store.events, w, slot));
        && (failure.None? <==> step.Stored?)
        && (failure == Some(ObjectAlreadyExists) <==> step.Collided?)
        && (failure == Some(ObjectStoreFailure) <==> step.GaveUp?)
    {
      if length > cfg.maxBytes {
        return Some(SinglePutSizeLimit);
      }
      var outcome := client.PutObjectIfAbsent(w, key, data, length, sha);
      match outcome {
        case Succeeded => return None;
        case ObjectExists => return Some(ObjectAlreadyExists);
        case PutFailed(_) => return Some(ObjectStoreFailure);
        case SizeLimit => return Some(SinglePutSizeLimit);
      }
    }
  
    lemma StagedSnoc(items: seq<Evidence>, i: nat)
      requires i < |items|
      ensures Payload(cfg.line, items[..i + 1]) == Payload(cfg.line, items[..i]) + (cfg.line(items[i]) + [NEWLINE])
      ensures |Payload(cfg.line, items[..i + 1])| <= |Payload(cfg.line, items)|
      ensures Tally(items[..i + 1]) == Bump(Tally(items[..i]), items[i].result.outcome)
    {
      PayloadSnoc(cfg.line, items, i);
      TallySnoc(items, i);
      PayloadPrefixBound(cfg.line, items, i + 1);
    }

    /** Writes one line to the spool, if it still fits. */
    method StageLine(item: Evidence, spool: ByteStream, ghost items: seq<Evidence>, ghost i: nat) returns (fits: bool)
      requires i < |items| && item == items[i]
      requires spool.content == Payload(cfg.line, items[..i]) && spool.position == |spool.content| <= cfg.maxBytes
      modifies spool
      ensures spool.position == |spool.content| <= cfg.maxBytes
      ensures fits <==> |Payload(cfg.line, items[..i + 1])| <= cfg.maxBytes
      ensures fits ==> spool.content == Payload(cfg.line, items[..i + 1])
      ensures !fits ==> |Payload(cfg.line, items)| > cfg.maxBytes
    {
      StagedSnoc(items, i);
      var line := cfg.line(item) + [NEWLINE];
      fits := spool.position + |line| <= cfg.maxBytes;
      if fits {
        spool.Append(line);
      }
    }

    /** Writes the items to the spool as NDJSON while counting them. */
    method StageLines(a: Artifact, items: seq<Evidence>, spool: ByteStream)
      returns (failure: Option<Failure>, totalRecords: nat, counts: Counts)
      requires spool.content == [] && spool.position == 0
      modifies spool
      ensures spool.Valid() && |spool.content| <= cfg.maxBytes
      ensures failure.None? <==> AllValid(a, items) && |Payload(cfg.line, items)| <= cfg.maxBytes
      ensures failure.None? ==>
        spool.content == Payload(cfg.line, items) && totalRecords == |items| && counts == Tally(items)
      ensures failure == Some(SinglePutSizeLimit) ==> |Payload(cfg.line, items)| > cfg.maxBytes
      ensures failure.Some? && failure.value != SinglePutSizeLimit ==>
        failure.value == ManifestSerialization && !AllValid(a, items)
    {
      counts := NO_COUNTS;
      totalRecords := 0;
      var i := 0;
      while i < |items|
        invariant 0 <= i <= |items|
        invariant spool.content == Payload(cfg.line, items[..i]) && spool.position == |spool.content| <= cfg.maxBytes
        invariant counts == Tally(items[..i]) && totalRecords == i
        invariant forall j :: 0 <= j < i ==> ValidEvidence(a, items[j])
      {
        var item := items[i];
        if !ValidEvidence(a, item) {
          return Some(ManifestSerialization), totalRecords, counts;
        }
        var fits := StageLine(item, spool, items, i);
        if !fits {
          return Some(SinglePutSizeLimit), totalRecords, counts;
        }
        StagedSnoc(items, i);
        counts := Bump(counts, item.result.outcome);
        totalRecords := totalRecords + 1;
        i := i + 1;
      }
      assert items[..i] == items;
      failure := None;
    }

    /** Stages the evidence. Nothing is sent unless every item is valid, the iterator ends normally and the payload
        fits. */
    method StageItems(a: Artifact, source: EvidenceSource, spool: ByteStream) returns (r: Result<Staged>)
      requires spool.content == [] && spool.position == 0
      modifies spool
      ensures spool.Valid() && |spool.content| <= cfg.maxBytes
      ensures r.Ok? ==>
        AllValid(a, source.items) && source.ending.Exhausted? && |Payload(cfg.line, source.items)| <= cfg.maxBytes
      ensures r.Ok? ==> spool.content == Payload(cfg.line, source.items)
      ensures r.Ok? ==> r.value == Staged(Payload(cfg.line, source.items), |source.items|, Tally(source.items))
      ensures r == Err(SinglePutSizeLimit) ==> |Payload(cfg.line, source.items)| > cfg.maxBytes
      ensures r == Err(EvidenceStaging) ==> source.ending.RaisesOSError?
      ensures AllValid(a, source.items) && |Payload(cfg.line, source.items)| > cfg.maxBytes ==>
        r == Err(SinglePutSizeLimit)
      ensures AllValid(a, source.items) && |Payload(cfg.line, source.items)| <= cfg.maxBytes ==>
        r == match source.ending
             case Exhausted => Ok(Staged(Payload(cfg.line, source.items), |source.items|, Tally(source.items)))
             case RaisesOSError => Err(EvidenceStaging)
             case Raises => Err(ManifestSerialization)
      ensures r.Err? ==> r.failure in {SinglePutSizeLimit, ManifestSerialization, EvidenceStaging}
    {
      var failure, totalRecords, counts := StageLines(a, source.items, spool);
      if failure.Some? {
        return Err(failure.value);
      }
      match source.ending {
        case RaisesOSError => return Err(EvidenceStaging);
        case Raises => return Err(ManifestSerialization);
        case Exhausted => return Ok(Staged(spool.content, totalRecords, counts));
      }
    }

    method WriteEvidence(w: nat, a: Artifact, source: EvidenceSource, key: string) returns (r: Result<EvidenceSummary>)
      requires Valid() && w in store.now.writers && store.now.writers[w].phase == Staging
      requires key == store.now.writers[w].plan.job.keys.evidence
      modifies store
      ensures Valid() && old(store.events) <= store.events && w in store.now.writers
      ensures r.Ok? ==> AllValid(a, source.items) && source.ending.Exhausted?
      ensures r.Ok? ==>
        var payload := Payload(cfg.line, source.items);
        var stored := StoredObject(Uri(cfg, key), |payload|, cfg.sha(payload));
        r.value == EvidenceSummary(stored, |source.items|, Tally(source.items))
      ensures r.Ok? ==>
        var staged := Staged(Payload(cfg.line, source.items), |source.items|, Tally(source.items));
        var p := Plan(old(store.now.writers[w]).plan.job, Some(staged));
        store.now.writers[w] == Settle(cfg, Writer(p, Staging), EVIDENCE, Stored)
      ensures r.Err? ==> FailedWith(store.now.writers[w], r.failure)
      ensures r == Err(SinglePutSizeLimit) ==> |Payload(cfg.line, source.items)| > cfg.maxBytes
      ensures AllValid(a, source.items) && |Payload(cfg.line, source.items)| > cfg.maxBytes ==>
        r == Err(SinglePutSizeLimit)
      ensures r == Err(EvidenceStaging) ==> source.ending.RaisesOSError?
      // an invalid item or a failing iterator: no evidence PUT, and so no marker PUT, has begun or will begin
      ensures !(AllValid(a, source.items) && source.ending.Exhausted?) ==>
        r.Err? && store.now.writers[w].phase.begun == 1
      ensures r == Err(ManifestSerialization) ==> !AllValid(a, source.items) || source.ending.Raises?
      ensures r.Err? ==> r.failure in LATER_FAILURES
    {
      ghost var job := store.now.writers[w].plan.job;
      var spool := new ByteStream([]);
      var staged := StageItems(a, source, spool);
      if staged.Err? {
        store.PerformStage(w, None);
        return Err(staged.failure);
      }
      store.PerformStage(w, Some(staged.value));
      spool.Seek(0);
      var sha := cfg.sha(staged.value.payload);
      ghost var p := Plan(job, Some(staged.value));
      assert spool.content[0..] == staged.value.payload;
      var failure := PutIfAbsent(w, p, EVIDENCE, key, spool, |staged.value.payload|, sha);
      if failure.Some? {
        return Err(failure.value);
      }
      var stored := StoredObject(Uri(cfg, key), |staged.value.payload|, sha);
      return Ok(EvidenceSummary(stored, staged.value.total, staged.value.counts));
    }

    /** The plan of a run whose evidence is the whole of its source. */
    function PlanOf(a: Artifact, keys: Keys, file: ChunkedFile, source: EvidenceSource, messages: seq<Message>): Plan {
      Plan(Job(a, prefix, keys, file.Content(), messages),
        Some(Staged(Payload(cfg.line, source.items), |source.items|, Tally(source.items))))
    }

    /** The evidence and the manifest of this plan fit into a PUT. */
    predicate Small(p: Plan) {
      |PayloadOf(cfg, p, EVIDENCE)| <= cfg.maxBytes && |PayloadOf(cfg, p, MARKER)| <= cfg.maxBytes
    }

    /** The run has written all three objects of this plan. */
    ghost predicate Committed(w: nat, p: Plan)
      reads store
    {
      w in store.now.writers && store.now.writers[w] == Writer(p, Done)
    }

    /** Why the artifact cannot be snapshotted, if it cannot: it is too large, unreadable, or not the expected one. */
    function SnapshotRefusal(a: Artifact, file: ChunkedFile): Option<Failure> {
      if |file.Content()| > cfg.maxBytes then Some(SinglePutSizeLimit)
      else if !file.intact then Some(ArtifactStaging)
      else if a.expectedSha256.Some? && a.expectedSha256.value != cfg.sha(file.Content()) then Some(ArtifactIntegrity)
      else None
    }

    function Refusal(a: Artifact, isFile: bool, file: ChunkedFile): Option<Failure> {
      if !isFile then Some(ArtifactNotFound)
      else if cfg.keys(a, prefix).None? then Some(UnsafePrefix)
      else SnapshotRefusal(a, file)
    }

    /** Looks at the three keys and PUTs the staged artifact. */
    method PutArtifact(w: nat, job: Job, snapshot: ByteStream, length: nat, sha: string)
      returns (failure: Option<Failure>)
      requires Valid() && w in store.now.writers && store.now.writers[w] == Writer(Plan(job, None), Checking(0))
      requires snapshot.Valid() && snapshot.content == job.bytes && |job.bytes| <= cfg.maxBytes
      requires length == |job.bytes| && sha == cfg.sha(job.bytes)
      modifies store, snapshot`position
      ensures Valid() && old(store.events) <= store.events && w in store.now.writers
      ensures failure.None? ==> store.now.writers[w] == Writer(Plan(job, None), Staging)
      ensures failure.Some? ==> FailedWith(store.now.writers[w], failure.value) && store.now.writers[w].phase.begun <= 1
      ensures failure.Some? ==> failure.value in {ObjectAlreadyExists, ObjectStoreFailure}
    {
      failure := AssertBundleAbsent(w, job.keys);
      if failure.None? {
        snapshot.Seek(0);
        assert snapshot.content[0..] == job.bytes;
        failure := PutIfAbsent(w, Plan(job, None), ARTIFACT, job.keys.artifact, snapshot, length, sha);
      }
    }

    /** The artifact's part: snapshot, look at the three keys, PUT. */
    method StoreArtifact(w: nat, a: Artifact, keys: Keys, file: ChunkedFile, messages: seq<Message>)
      returns (r: Result<StoredObject>)
      requires Valid() && w !in store.now.writers && cfg.keys(a, prefix) == Some(keys)
      modifies store
      ensures Valid() && old(store.events) <= store.events
      ensures r.Ok? ==> file.intact && w in store.now.writers
      ensures r.Ok? ==>
        store.now.writers[w] == Writer(Plan(Job(a, prefix, keys, file.Content(), messages), None), Staging)
      ensures r.Ok? ==> r.value == StoredObject(Uri(cfg, keys.artifact), |file.Content()|, cfg.sha(file.Content()))
      ensures SnapshotRefusal(a, file).Some? ==>
        r == Err(SnapshotRefusal(a, file).value) && store.now == old(store.now) && store.events == old(store.events)
      ensures SnapshotRefusal(a, file).None? ==> w in store.now.writers
      ensures SnapshotRefusal(a, file).None? && r.Err? ==>
        && FailedWith(store.now.writers[w], r.failure) && store.now.writers[w].phase.begun <= 1
        && r.failure in {ObjectAlreadyExists, ObjectStoreFailure}
    {
      var snapshot := new ByteStream([]);
      var taken := SnapshotArtifact(a, file, snapshot);
      if taken.Err? {
        return Err(taken.failure);
      }
      var job := Job(a, prefix, keys, snapshot.content, messages);
      store.PerformStart(w, job);
      var failure := PutArtifact(w, job, snapshot, taken.value.size, taken.value.sha256);
      if failure.Some? {
        return Err(failure.value);
      }
      return Ok(StoredObject(Uri(cfg, keys.artifact), taken.value.size, taken.value.sha256));
    }

    method PutCompletion(w: nat, ghost p: Plan, key: string, completion: Manifest) returns (failure: Option<Failure>)
      requires Valid() && w in store.now.writers && store.now.writers[w] == Begin(cfg, Writer(p, Staging), MARKER)
      requires key == p.job.keys.completion && completion == ManifestOf(cfg, p)
      modifies store
      ensures Valid() && old(store.events) <= store.events && w in store.now.writers
      ensures failure.None? ==> Committed(w, p)
      ensures failure.Some? ==> FailedWith(store.now.writers[w], failure.value)
      ensures failure.Some? ==> failure.value in {SinglePutSizeLimit, ObjectAlreadyExists, ObjectStoreFailure}
      ensures failure == Some(SinglePutSizeLimit) <==> |cfg.encode(ManifestOf(cfg, p))| > cfg.maxBytes
    {
      var completionBytes := cfg.encode(completion);
      var body := new ByteStream(completionBytes);
      assert body.content[0..] == completionBytes;
      failure := PutIfAbsent(w, p, MARKER, key, body, |completionBytes|, cfg.sha(completionBytes));
    }

    /** The rest of the run once the artifact is stored: evidence, then the completion marker. */
    method StoreEvidenceAndMarker(w: nat, a: Artifact, keys: Keys, ghost file: ChunkedFile,
                                  artifactObject: StoredObject, source: EvidenceSource, messages: seq<Message>)
      returns (r: Result<Receipt>)
      requires Valid() && w in store.now.writers
      requires store.now.writers[w] == Writer(Plan(Job(a, prefix, keys, file.Content(), messages), None), Staging)
      requires artifactObject == StoredObject(Uri(cfg, keys.artifact), |file.Content()|, cfg.sha(file.Content()))
      modifies store
      ensures Valid() && old(store.events) <= store.events && w in store.now.writers
      ensures r.Ok? ==> Committed(w, PlanOf(a, keys, file, source, messages))
      ensures r.Ok? ==> r.value == ReceiptOf(cfg, PlanOf(a, keys, file, source, messages))
      ensures !(AllValid(a, source.items) && source.ending.Exhausted?) ==>
        r.Err? && store.now.writers[w].phase.Failed? && store.now.writers[w].phase.begun == 1
      ensures r == Err(ManifestSerialization) ==> !AllValid(a, source.items) || source.ending.Raises?
      ensures r == Err(EvidenceStaging) ==> source.ending.RaisesOSError?
      ensures r == Err(SinglePutSizeLimit) ==> !Small(PlanOf(a, keys, file, source, messages))
      ensures AllValid(a, source.items) && |Payload(cfg.line, source.items)| > cfg.maxBytes ==>
        r == Err(SinglePutSizeLimit)
      ensures r.Err? ==> FailedWith(store.now.writers[w], r.failure) && r.failure in LATER_FAILURES
    {
      var summary := WriteEvidence(w, a, source, keys.evidence);
      if summary.Err? {
        return Err(summary.failure);
      }
      ghost var p := PlanOf(a, keys, file, source, messages);
      var completion := Manifest(a.source, a.runId, a.retrievedAt.text, a.sourceUrl, a.contractVersion,
        artifactObject, summary.value.stored, summary.value.total, summary.value.counts, messages);
      var failure := PutCompletion(w, p, keys.completion, completion);
      if failure.Some? {
        return Err(failure.value);
      }
      return Ok(Receipt(a.source, a.runId, artifactObject, summary.value.stored, Uri(cfg, keys.completion)));
    }

    /**
     * One whole run. It returns normally only when all three objects are in the store as its receipt and its
     * manifest say; before the artifact's snapshot is complete and verified it sends no request at all.
     */
    method StoreBundle(w: nat, a: Artifact, isFile: bool, file: ChunkedFile, source: EvidenceSource,
                       messages: seq<Message>)
      returns (r: Result<Receipt>)
      requires Valid() && w !in store.now.writers
      modifies store
      ensures Valid() && old(store.events) <= store.events
      ensures r.Ok? ==>
        cfg.keys(a, prefix).Some? && Committed(w, PlanOf(a, cfg.keys(a, prefix).value, file, source, messages))
      ensures r.Ok? ==> r.value == ReceiptOf(cfg, PlanOf(a, cfg.keys(a, prefix).value, file, source, messages))
      ensures r.Ok? ==> isFile && file.intact && AllValid(a, source.items) && source.ending.Exhausted?
      ensures r.Ok? ==> forall i :: 0 <= i < |source.items| ==>
        && source.items[i].provenance.source == a.source && source.items[i].provenance.runId == a.runId
        && source.items[i].provenance.contractVersion == a.contractVersion
        && source.items[i].provenance.outcome == source.items[i].result.outcome
      // bad evidence: neither the evidence PUT nor the marker PUT begins
      ensures !(AllValid(a, source.items) && source.ending.Exhausted?) ==>
        && r.Err?
        && (w in store.now.writers ==> store.now.writers[w].phase.Failed? && store.now.writers[w].phase.begun <= 1)
      ensures r == Err(ManifestSerialization) ==> !AllValid(a, source.items) || source.ending.Raises?
      // whatever can be refused without the store is refused before anything is asked of it
      ensures Refusal(a, isFile, file).Some? ==>
        r == Err(Refusal(a, isFile, file).value) && store.now == old(store.now) && store.events == old(store.events)
      // past the refusals the run is on record, and every failure is reported as the run's own
      ensures Refusal(a, isFile, file).None? ==> w in store.now.writers
      ensures Refusal(a, isFile, file).None? && r.Err? ==> FailedWith(store.now.writers[w], r.failure)
      ensures Refusal(a, isFile, file).None? && r.Err? ==> r.failure in LATER_FAILURES
      ensures Refusal(a, isFile, file).None? && r.Err? ==>
        var error := store.now.writers[w].phase.error;
        && (r.failure == ObjectAlreadyExists <==> error == AlreadyPresent || error == Collision)
        && (r.failure == ObjectStoreFailure <==> error == StoreFailure)
      // a staging error is the iterator's, a size error is the evidence's or the manifest's
      ensures r == Err(EvidenceStaging) ==> source.ending.RaisesOSError?
      ensures Refusal(a, isFile, file).None? && r == Err(SinglePutSizeLimit) ==>
        !Small(PlanOf(a, cfg.keys(a, prefix).value, file, source, messages))
      // and when neither has anything to complain of, only the store can fail the run
      ensures Refusal(a, isFile, file).None? && AllValid(a, source.items) && source.ending.Exhausted? ==>
        Small(PlanOf(a, cfg.keys(a, prefix).value, file, source, messages)) && r.Err? ==>
          r.failure in {ObjectAlreadyExists, ObjectStoreFailure}
    {
      if !isFile {
        return Err(ArtifactNotFound);
      }
      var built := cfg.keys(a, prefix);
      if built.None? {
        return Err(UnsafePrefix);
      }
      var keys := built.value;
      var artifactObject := StoreArtifact(w, a, keys, file, messages);
      if artifactObject.Err? {
        return Err(artifactObject.failure);
      }
      r := StoreEvidenceAndMarker(w, a, keys, file, artifactObject.value, source, messages);
    }
  }
}
