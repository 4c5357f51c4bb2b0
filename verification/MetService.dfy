/** One Met snapshot: download it, look at its header, store it with the evidence of its rows, and report. */
module MetService {
  import opened Basics
  import opened Bronze
  import opened Ndjson
  import opened Protocol
  import opened BronzeStore
  import opened MetContract
  import opened MetCsv
  import MetDownload

  /** The batches that the CSV scanner makes of a file; if `fails`, it raises after them. */
  datatype Scan = Scan(batches: seq<seq<Row>>, fails: bool)

  datatype IngestionResult = IngestionResult(
    runId: Uuid,
    retrievedAt: Instant,
    receipt: Receipt,
    requestedUrl: string,
    finalUrl: string,
    mediaType: string,
    size: nat,
    sha256: string,
    totalRecords: nat,
    outcomeCounts: Counts,
    messages: seq<Message>)

  datatype IngestionOutcome =
    | Ingested(result: IngestionResult)
    | DownloadFailed
    | PreflightFailed
    | NoTarget
    | BundleFailed(failure: Failure)

  /** The artifact and the context that a run makes of its download. */
  function ArtifactOf(runId: Uuid, d: MetDownload.Snapshot, contractVersion: string): Artifact {
    Artifact(Met, runId, d.retrievedAt, d.requestedUrl, d.mediaType, "csv", contractVersion, Some(d.sha256))
  }

  function ContextOf(museumId: Uuid, runId: Uuid, observedAt: string, d: MetDownload.Snapshot, target: Target,
                     contractVersion: string): Context {
    Context(museumId, runId, observedAt, d.retrievedAt.text, d.requestedUrl, target.artifactUri, d.sha256,
      contractVersion)
  }

  /** For every sequence of rows the store accepts whatever the reader makes of it, if the context is the artifact's. */
  lemma ReaderStoreCompatible(a: Artifact, ctx: Context, rows: seq<Row>, isIso: string -> bool, entityIds: nat -> Uuid)
    ensures AllValid(a, EvidenceOf(ctx, rows, isIso, entityIds))
       <==> rows == [] || (a.source == Met && ctx.runId == a.runId && ctx.contractVersion == a.contractVersion)
  {
    var items := EvidenceOf(ctx, rows, isIso, entityIds);
    if rows != [] && AllValid(a, items) {
      assert ValidEvidence(a, items[0]);
    }
  }

  /** Each item points back at this stored object. */
  ghost predicate PointsAt(items: seq<Evidence>, o: StoredObject) {
    forall i :: 0 <= i < |items| ==>
      items[i].provenance.rawUri == o.uri && items[i].provenance.rawChecksum == Some(o.sha256)
  }

  lemma EvidencePointsAt(ctx: Context, rows: seq<Row>, isIso: string -> bool, entityIds: nat -> Uuid, size: nat)
    ensures PointsAt(EvidenceOf(ctx, rows, isIso, entityIds), StoredObject(ctx.rawUri, size, ctx.rawChecksum))
  {
  }

  /** A plan whose evidence part is the written form of these items. */
  ghost predicate Carries(cfg: Config, p: Plan, items: seq<Evidence>) {
    p.evidence == Some(Staged(Payload(cfg.line, items), |items|, Tally(items)))
  }

  /** What a result says of its run: the result, the completion manifest and the staged evidence give the same
      numbers, and every record points at the stored artifact by its URI and its hash. */
  ghost predicate Reports(cfg: Config, result: IngestionResult, content: Bytes, p: Plan, items: seq<Evidence>) {
    var manifest := ManifestOf(cfg, p);
    && p.job.bytes == content && Carries(cfg, p, items) && PointsAt(items, manifest.artifact)
    && result.receipt == ReceiptOf(cfg, p)
    && result.runId == manifest.runId && result.messages == manifest.contractMessages
    && result.sha256 == manifest.artifact.sha256 && result.size == manifest.artifact.size
    && result.totalRecords == manifest.totalRecords == |items|
    && result.outcomeCounts == manifest.outcomeCounts
  }

  class MetSnapshotIngestionService {
    const downloader: MetDownload.MetSnapshotDownloader
    const bronze: MinioBronzeArtifactStore
    const reader: MetCsvEvidenceReader
    const museumId: Uuid
    const contractVersion: string
    const inspect: Bytes -> Option<seq<Message>>
    const scan: (Bytes, nat) -> Scan
    const isIso: string -> bool

    ghost predicate Valid() reads bronze, bronze.store {
      && bronze.Valid()
      && downloader.maxAttempts >= 1 && downloader.sha == bronze.cfg.sha
      && forall b, n :: Numbered(Flatten(scan(b, n).batches))
    }

    constructor (downloader: MetDownload.MetSnapshotDownloader, bronze: MinioBronzeArtifactStore, museumId: Uuid,
                 contractVersion: string, batchSize: nat, inspect: Bytes -> Option<seq<Message>>,
                 scan: (Bytes, nat) -> Scan, isIso: string -> bool)
      requires batchSize >= 1 && bronze.Valid() && downloader.maxAttempts >= 1 && downloader.sha == bronze.cfg.sha
      requires forall b, n :: Numbered(Flatten(scan(b, n).batches))
      ensures Valid() && this.downloader == downloader && this.bronze == bronze
    {
      this.downloader, this.bronze := downloader, bronze;
      this.museumId, this.contractVersion := museumId, contractVersion;
      this.inspect, this.scan, this.isIso := inspect, scan, isIso;
      reader := new MetCsvEvidenceReader(batchSize);
    }

    method CountOutcomes(items: seq<Evidence>) returns (outcomeCounts: Counts)
      ensures outcomeCounts == Tally(items)
    {
      outcomeCounts := NO_COUNTS;
      var i := 0;
      while i < |items|
        invariant 0 <= i <= |items| && outcomeCounts == Tally(items[..i])
      {
        TallySnoc(items, i);
        outcomeCounts := Bump(outcomeCounts, items[i].result.outcome);
        i := i + 1;
      }
      assert items[..i] == items;
    }

    /** counted_evidence: the reader's items, counted as they are pulled. */
    method CountedEvidence(content: Bytes, ctx: Context, entityIds: nat -> Uuid)
      returns (source: EvidenceSource, outcomeCounts: Counts)
      requires Numbered(Flatten(scan(content, reader.batchSize).batches))
      ensures source.items == EvidenceOf(ctx, Flatten(scan(content, reader.batchSize).batches), isIso, entityIds)
      ensures source.ending == if scan(content, reader.batchSize).fails then Raises else Exhausted
      ensures outcomeCounts == Tally(source.items)
    {
      var scanned := scan(content, reader.batchSize);
      var read := reader.IterEvidence(scanned.batches, scanned.fails, ctx, isIso, entityIds);
      outcomeCounts := CountOutcomes(read.items);
      source := EvidenceSource(read.items, if read.ParseError? then Raises else Exhausted);
    }

    /** Reads the downloaded file in some chunks; nobody else writes to it, but reading may fail. */
    method ReadFile(content: Bytes) returns (file: ChunkedFile)
      ensures file.intact ==> file.Content() == content
    {
      file := *;
      if file.Content() != content {
        file := ChunkedFile(file.chunks, false);
      }
    }

    /** The run is committed, and its result is right about it. */
    ghost predicate Reconciled(w: nat, result: IngestionResult, content: Bytes, p: Plan, ctx: Context,
                               entityIds: nat -> Uuid)
      reads bronze, bronze.store
    {
      && bronze.Committed(w, p)
      && Reports(bronze.cfg, result, content, p,
           EvidenceOf(ctx, Flatten(scan(content, reader.batchSize).batches), isIso, entityIds))
    }

    /** The plan, the context of its evidence and the result are made from this download, for this run. */
    ghost predicate MadeFrom(d: MetDownload.Snapshot, runId: Uuid, observedAt: string, p: Plan, ctx: Context,
                             result: IngestionResult)
    {
      && p.job.artifact.source == Met && p.job.artifact.runId == runId && p.job.artifact.retrievedAt == d.retrievedAt
      && p.job.artifact.sourceUrl == d.requestedUrl && p.job.artifact.mediaType == d.mediaType
      && p.job.artifact.extension == "csv" && p.job.artifact.contractVersion == contractVersion
      && p.job.artifact.expectedSha256 == Some(d.sha256)
      && ctx.museumId == museumId && ctx.runId == runId && ctx.observedAt == observedAt
      && ctx.retrievedAt == d.retrievedAt.text && ctx.sourceUrl == d.requestedUrl
      && ctx.rawUri == "s3://" + bronze.cfg.bucket + "/" + p.job.keys.artifact
      && ctx.rawChecksum == d.sha256 && ctx.contractVersion == contractVersion
      && result.retrievedAt == d.retrievedAt && result.requestedUrl == d.requestedUrl
      && result.finalUrl == d.finalUrl && result.mediaType == d.mediaType
    }

    lemma MakesFrom(d: MetDownload.Snapshot, runId: Uuid, observedAt: string, p: Plan, target: Target,
                    result: IngestionResult)
      requires p.job.artifact == ArtifactOf(runId, d, contractVersion)
      requires target.artifactUri == Uri(bronze.cfg, p.job.keys.artifact)
      requires result.retrievedAt == d.retrievedAt && result.requestedUrl == d.requestedUrl
      requires result.finalUrl == d.finalUrl && result.mediaType == d.mediaType
      ensures var ctx := ContextOf(museumId, runId, observedAt, d, target, contractVersion);
        MadeFrom(d, runId, observedAt, p, ctx, result)
    {
    }

    method Report(d: MetDownload.Snapshot, receipt: Receipt, outcomeCounts: Counts, messages: seq<Message>,
                  ghost p: Plan, ghost items: seq<Evidence>)
      returns (result: IngestionResult)
      requires Carries(bronze.cfg, p, items) && PointsAt(items, StoredArtifact(bronze.cfg, p))
      requires receipt == ReceiptOf(bronze.cfg, p) && outcomeCounts == Tally(items) && messages == p.job.messages
      requires d.sha256 == bronze.cfg.sha(p.job.bytes) && d.size == |p.job.bytes|
      ensures Reports(bronze.cfg, result, p.job.bytes, p, items)
      ensures result.size == d.size && result.retrievedAt == d.retrievedAt && result.requestedUrl == d.requestedUrl
      ensures result.finalUrl == d.finalUrl && result.mediaType == d.mediaType
    {
      TallyTotal(items);
      result := IngestionResult(receipt.runId, d.retrievedAt, receipt, d.requestedUrl, d.finalUrl, d.mediaType, d.size,
        d.sha256, TotalOf(outcomeCounts), outcomeCounts, messages);
    }

    /** Stores the artifact with its counted evidence, and reports. */
    method StoreCounted(w: nat, artifact: Artifact, d: MetDownload.Snapshot, content: Bytes, source: EvidenceSource,
                        outcomeCounts: Counts, messages: seq<Message>)
      returns (r: IngestionOutcome, ghost p: Plan)
      requires bronze.Valid() && w !in bronze.store.now.writers
      requires d.sha256 == bronze.cfg.sha(content) && d.size == |content| && artifact.expectedSha256 == Some(d.sha256)
      requires AllValid(artifact, source.items) && outcomeCounts == Tally(source.items)
      requires bronze.TargetFor(artifact).Some?
      requires PointsAt(source.items, StoredObject(bronze.TargetFor(artifact).value.artifactUri, |content|, d.sha256))
      modifies bronze.store
      ensures bronze.Valid() && old(bronze.store.events) <= bronze.store.events
      ensures r.Ingested? || r.BundleFailed?
      ensures r.Ingested? ==> bronze.Committed(w, p) && Reports(bronze.cfg, r.result, content, p, source.items)
      ensures r.Ingested? ==> r.result.runId == artifact.runId && source.ending.Exhausted?
      ensures r.Ingested? ==> p.job.artifact == artifact && r.result.messages == messages
      ensures r.Ingested? ==> bronze.TargetFor(artifact).value.artifactUri == Uri(bronze.cfg, p.job.keys.artifact)
      ensures r.Ingested? ==> r.result.retrievedAt == d.retrievedAt && r.result.requestedUrl == d.requestedUrl
      ensures r.Ingested? ==> r.result.finalUrl == d.finalUrl && r.result.mediaType == d.mediaType
      ensures r != BundleFailed(ArtifactIntegrity)
      ensures r == BundleFailed(ManifestSerialization) ==> source.ending.Raises?
      ensures r == BundleFailed(EvidenceStaging) ==> source.ending.RaisesOSError?
    {
      p := *;
      var file := ReadFile(content);
      var receipt := bronze.StoreBundle(w, artifact, true, file, source, messages);
      if receipt.Err? {
        return BundleFailed(receipt.failure), p;
      }
      p := bronze.PlanOf(artifact, bronze.cfg.keys(artifact, bronze.prefix).value, file, source, messages);
      var result := Report(d, receipt.value, outcomeCounts, messages, p, source.items);
      r := Ingested(result);
    }

    /** The part of a run after the header check. */
    method StoreSnapshot(w: nat, runId: Uuid, observedAt: string, entityIds: nat -> Uuid, d: MetDownload.Snapshot,
                         content: Bytes, messages: seq<Message>)
      returns (r: IngestionOutcome, ghost p: Plan, ghost ctx: Context)
      requires Valid() && w !in bronze.store.now.writers
      requires d.sha256 == bronze.cfg.sha(content) && d.size == |content|
      modifies bronze.store
      ensures Valid() && old(bronze.store.events) <= bronze.store.events
      ensures r.Ingested? || r.NoTarget? || r.BundleFailed?
      ensures r.Ingested? ==> Reconciled(w, r.result, content, p, ctx, entityIds) && r.result.runId == runId
      ensures r.Ingested? ==> MadeFrom(d, runId, observedAt, p, ctx, r.result) && r.result.messages == messages
      ensures r.NoTarget? ==>
        bronze.store.now == old(bronze.store.now) && bronze.store.events == old(bronze.store.events)
      ensures r.NoTarget? ==> bronze.cfg.keys(ArtifactOf(runId, d, contractVersion), bronze.prefix).None?
      ensures r != BundleFailed(ArtifactIntegrity) && r != BundleFailed(EvidenceStaging)
      ensures r == BundleFailed(ManifestSerialization) ==> scan(content, reader.batchSize).fails
    {
      p, ctx := *, *;
      var artifact := ArtifactOf(runId, d, contractVersion);
      var target := bronze.TargetFor(artifact);
      if target.None? {
        r := NoTarget;
        return;
      }
      var context := ContextOf(museumId, runId, observedAt, d, target.value, contractVersion);
      ctx := context;
      var source, outcomeCounts := CountedEvidence(content, context, entityIds);
      ReaderStoreCompatible(artifact, context, Flatten(scan(content, reader.batchSize).batches), isIso, entityIds);
      EvidencePointsAt(context, Flatten(scan(content, reader.batchSize).batches), isIso, entityIds, |content|);
      r, p := StoreCounted(w, artifact, d, content, source, outcomeCounts, messages);
      if r.Ingested? {
        MakesFrom(d, runId, observedAt, p, target.value, r.result);
      }
    }

    /** One run, from the download to the result. */
    method Run(w: nat, runId: Uuid, observedAt: string, entityIds: nat -> Uuid, dir: MetDownload.DownloadDirectory,
               server: nat -> MetDownload.Fetch, clock: nat -> Option<Instant>,
               decide: (MetDownload.Failure, nat) -> MetDownload.Decision)
      returns (r: IngestionOutcome, ghost p: Plan, ghost ctx: Context, ghost attempts: nat,
               ghost d: MetDownload.Snapshot)
      requires Valid() && w !in bronze.store.now.writers
      modifies dir, bronze.store
      ensures Valid() && old(bronze.store.events) <= bronze.store.events
      ensures r.Ingested? ==> dir.target.Some? && Reconciled(w, r.result, dir.target.value, p, ctx, entityIds)
      ensures r.Ingested? ==> r.result.runId == runId && r.result.size > 0
      // and all of it is about the download that one of the server's answers gave
      ensures r.Ingested? ==> 1 <= attempts <= downloader.maxAttempts
      ensures r.Ingested? ==> downloader.Tells(MetDownload.Downloaded(d), server(attempts), clock(attempts))
      ensures r.Ingested? ==> MadeFrom(d, runId, observedAt, p, ctx, r.result)
      ensures r.Ingested? ==> inspect(dir.target.value) == Some(r.result.messages)
      // each way to stop before the store has its own reason
      ensures r.DownloadFailed? && dir.failures == old(dir.failures) ==>
        && 1 <= attempts <= downloader.maxAttempts
        && MetDownload.FailureOf(server(attempts), false, clock(attempts), downloader.maxBytes).Some?
      ensures r.PreflightFailed? ==> dir.target.Some? && inspect(dir.target.value).None?
      ensures r.NoTarget? ==> bronze.cfg.keys(ArtifactOf(runId, d, contractVersion), bronze.prefix).None?
      // a run that does not get as far as the store leaves it alone
      ensures !r.Ingested? && !r.BundleFailed? ==>
        bronze.store.now == old(bronze.store.now) && bronze.store.events == old(bronze.store.events)
      // the store's checks of evidence and of the hash never fail on what the service hands over, and the reader
      // turns every error of its own into one that is not an OSError
      ensures r != BundleFailed(ArtifactIntegrity) && r != BundleFailed(EvidenceStaging)
      ensures r == BundleFailed(ManifestSerialization) ==>
        dir.target.Some? && scan(dir.target.value, reader.batchSize).fails
    {
      p, ctx, d := *, *, *;
      var download;
      download, attempts := downloader.Download(dir, server, clock, decide);
      if !download.Done? {
        r := DownloadFailed;
        return;
      }
      var content := dir.target.value;
      var messages := inspect(content);
      if messages.None? {
        r := PreflightFailed;
        return;
      }
      d := download.result.snapshot;
      r, p, ctx := StoreSnapshot(w, runId, observedAt, entityIds, download.result.snapshot, content, messages.value);
    }
  }
}
