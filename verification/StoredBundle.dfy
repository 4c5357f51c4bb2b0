/** What a reader of a stored bundle finds: the bytes behind the receipts and the manifests. */
module StoredBundle {
  import opened Basics
  import opened Bronze
  import opened BronzeJson
  import opened ObjectKeys
  import opened Ndjson
  import opened BundleText
  import opened JsonMembers
  import opened PutMachine
  import opened Protocol
  import opened ProtocolInvariant
  import opened ProtocolTheorems
  import opened ProtocolFailures
  import opened MetService

  /** The bytes of the service's objects are canonical JSON under the standard keys. */
  ghost predicate CanonicalConfig(cfg: Config) {
    && StandardKeys(cfg)
    && CanonicalLines(cfg.line)
    && forall m :: cfg.encode(m) == EncodeManifest(m)
  }

  /** All three objects of the plan are there. */
  ghost predicate AllThere(cfg: Config, s: System, p: Plan) {
    forall slot: Slot :: HoldsSlot(cfg, s, p, slot)
  }

  /** The object's declared hash is the hash of its bytes. */
  ghost predicate Truthful(cfg: Config, s: System, key: string) {
    key in s.objects && s.objects[key].declaredSha == Some(cfg.sha(s.objects[key].body))
  }

  ghost predicate AllTruthful(cfg: Config, s: System, p: Plan) {
    forall slot: Slot :: Truthful(cfg, s, KeyOf(p.job, slot))
  }

  ghost predicate AllIntended(cfg: Config, s: System, p: Plan) {
    forall slot: Slot ::
      KeyOf(p.job, slot) in s.objects && s.objects[KeyOf(p.job, slot)].body == PayloadOf(cfg, p, slot)
  }

  /** Success compares declared hashes, so with a collision-free hash the stored bytes are the intended ones exactly
      when whoever created the objects declared their hashes truthfully; every run does (TruthfulMetadata). */
  lemma StoredBytesAreIntended(cfg: Config, s: System, p: Plan)
    requires InjectiveHash(cfg) && AllThere(cfg, s, p)
    ensures AllTruthful(cfg, s, p) <==> AllIntended(cfg, s, p)
  {
    forall slot: Slot
      ensures KeyOf(p.job, slot) in s.objects
      ensures Truthful(cfg, s, KeyOf(p.job, slot)) <==> s.objects[KeyOf(p.job, slot)].body == PayloadOf(cfg, p, slot)
    {
      assert HoldsSlot(cfg, s, p, slot);
    }
  }

  // ---- what the bytes of the three objects say of each other ----

  /** The URI of a key, as receipts, manifests and records write it. */
  predicate IsUri(uri: string, bucket: string, key: string) { uri == "s3://" + bucket + "/" + key }

  /** The marker describes the object at this key by its URI, its size and the hash of its bytes. */
  ghost predicate Describes(cfg: Config, s: System, marker: Bytes, name: string, key: string) {
    && key in s.objects
    && SaysStored(marker, name, "s3://" + cfg.bucket + "/" + key, |s.objects[key].body|, cfg.sha(s.objects[key].body))
  }

  /** The marker's counts are those of the lines, and its other members those of the job. */
  ghost predicate MarkerAgrees(marker: Bytes, lines: seq<Bytes>, job: Job) {
    && IsInt(Top(marker, "total_records"), |lines|)
    && SaysCounts(marker, LinesSaying(lines, "accepted"), LinesSaying(lines, "accepted_with_warnings"),
         LinesSaying(lines, "quarantined"), LinesSaying(lines, "rejected"))
    && IsSourceValue(Top(marker, "source"), job.artifact.source)
    && Is(Top(marker, "ingestion_run_id"), job.artifact.runId)
    && Is(Top(marker, "retrieved_at"), job.artifact.retrievedAt.text)
    && Is(Top(marker, "source_url"), job.artifact.sourceUrl)
    && Is(Top(marker, "contract_version"), job.artifact.contractVersion)
    && SaysMessages(Top(marker, "contract_messages"), job.messages)
  }

  /** Each line says everything about its record, and points at the artifact by its URI and the hash of its bytes. */
  ghost predicate LinesAgree(cfg: Config, lines: seq<Bytes>, items: seq<Evidence>, key: string, artifact: Bytes) {
    && |lines| == |items|
    && forall i :: 0 <= i < |lines| ==>
         && SaysRecord(lines[i], items[i])
         && Is(Under(lines[i], "provenance", "raw_uri"), "s3://" + cfg.bucket + "/" + key)
         && Is(Under(lines[i], "provenance", "raw_checksum"), cfg.sha(artifact))
  }

  /** The result says of the bundle what its bytes say. */
  ghost predicate ResultAgrees(cfg: Config, result: IngestionResult, artifact: Bytes, evidence: Bytes, job: Job) {
    var lines := SplitLines(evidence);
    && result.totalRecords == |lines|
    && result.outcomeCounts[Accepted] == LinesSaying(lines, "accepted")
    && result.outcomeCounts[AcceptedWithWarnings] == LinesSaying(lines, "accepted_with_warnings")
    && result.outcomeCounts[Quarantined] == LinesSaying(lines, "quarantined")
    && result.outcomeCounts[Rejected] == LinesSaying(lines, "rejected")
    && result.sha256 == cfg.sha(artifact) && result.size == |artifact|
    && result.runId == job.artifact.runId && result.messages == job.messages
    && ReceiptAgrees(cfg, result.receipt, artifact, evidence, job)
  }

  ghost predicate ReceiptAgrees(cfg: Config, r: Receipt, artifact: Bytes, evidence: Bytes, job: Job) {
    && r.source == job.artifact.source && r.runId == job.artifact.runId
    && IsUri(r.artifact.uri, cfg.bucket, job.keys.artifact)
    && r.artifact.size == |artifact| && r.artifact.sha256 == cfg.sha(artifact)
    && IsUri(r.evidence.uri, cfg.bucket, job.keys.evidence)
    && r.evidence.size == |evidence| && r.evidence.sha256 == cfg.sha(evidence)
    && IsUri(r.completionUri, cfg.bucket, job.keys.completion)
  }

  /** The artifact is the downloaded bytes; marker, lines and result agree with it and with each other. */
  ghost predicate ReadsBack(cfg: Config, s: System, p: Plan, result: IngestionResult, content: Bytes,
                            items: seq<Evidence>) {
    var keys := p.job.keys;
    && keys.artifact in s.objects && keys.evidence in s.objects && keys.completion in s.objects
    && var artifact, evidence, marker :=
         s.objects[keys.artifact].body, s.objects[keys.evidence].body, s.objects[keys.completion].body;
       && artifact == content
       && Describes(cfg, s, marker, "artifact", keys.artifact)
       && Describes(cfg, s, marker, "evidence_manifest", keys.evidence)
       && MarkerAgrees(marker, SplitLines(evidence), p.job)
       && LinesAgree(cfg, SplitLines(evidence), items, keys.artifact, artifact)
       && ResultAgrees(cfg, result, artifact, evidence, p.job)
  }

  lemma PayloadAgrees(cfg: Config, p: Plan, items: seq<Evidence>)
    requires CanonicalLines(cfg.line) && Carries(cfg, p, items) && PointsAt(items, StoredArtifact(cfg, p))
    ensures LinesAgree(cfg, SplitLines(StagedOf(p).payload), items, p.job.keys.artifact, p.job.bytes)
  {
    PayloadSays(cfg.line, items);
  }

  lemma ManifestAgrees(cfg: Config, p: Plan, items: seq<Evidence>)
    requires CanonicalLines(cfg.line) && Carries(cfg, p, items)
    ensures var marker := EncodeManifest(ManifestOf(cfg, p));
      && MarkerAgrees(marker, SplitLines(StagedOf(p).payload), p.job)
      && SaysStored(marker, "artifact", "s3://" + cfg.bucket + "/" + p.job.keys.artifact, |p.job.bytes|,
           cfg.sha(p.job.bytes))
      && SaysStored(marker, "evidence_manifest", "s3://" + cfg.bucket + "/" + p.job.keys.evidence,
           |StagedOf(p).payload|, cfg.sha(StagedOf(p).payload))
  {
    ManifestSaid(ManifestOf(cfg, p));
    PayloadSays(cfg.line, items);
  }

  lemma ReportAgrees(cfg: Config, p: Plan, result: IngestionResult, content: Bytes, items: seq<Evidence>)
    requires CanonicalLines(cfg.line) && Reports(cfg, result, content, p, items)
    ensures ResultAgrees(cfg, result, p.job.bytes, StagedOf(p).payload, p.job)
  {
    PayloadSays(cfg.line, items);
  }

  lemma IntendedReadsBack(cfg: Config, s: System, p: Plan, result: IngestionResult, content: Bytes,
                          items: seq<Evidence>)
    requires CanonicalConfig(cfg) && AllIntended(cfg, s, p) && Reports(cfg, result, content, p, items)
    ensures ReadsBack(cfg, s, p, result, content, items)
  {
    assert s.objects[KeyOf(p.job, ARTIFACT)].body == PayloadOf(cfg, p, ARTIFACT);
    assert s.objects[KeyOf(p.job, EVIDENCE)].body == PayloadOf(cfg, p, EVIDENCE);
    assert s.objects[KeyOf(p.job, MARKER)].body == PayloadOf(cfg, p, MARKER);
    PayloadAgrees(cfg, p, items);
    ManifestAgrees(cfg, p, items);
    ReportAgrees(cfg, p, result, content, items);
  }

  lemma StaysThere(cfg: Config, events: seq<Event>, later: seq<Event>, w: nat, p: Plan)
    requires cfg.attempts > 0
    requires w in Reached(cfg, events).writers && Reached(cfg, events).writers[w] == Writer(p, Done)
    ensures AllThere(cfg, Reached(cfg, events + later), p)
  {
    forall slot: Slot ensures HoldsSlot(cfg, Reached(cfg, events + later), p, slot) {
      SuccessIsForever(cfg, events, later, w, slot);
    }
  }

  /** Each of the three objects was created by some run. */
  ghost predicate CreatedByRuns(s: System, p: Plan) {
    forall slot: Slot :: KeyOf(p.job, slot) in s.objects && s.objects[KeyOf(p.job, slot)].origin.Sent?
  }

  lemma RunsAreTruthful(cfg: Config, events: seq<Event>, p: Plan)
    requires cfg.attempts > 0 && CreatedByRuns(Reached(cfg, events), p)
    ensures AllTruthful(cfg, Reached(cfg, events), p)
  {
    forall slot: Slot ensures Truthful(cfg, Reached(cfg, events), KeyOf(p.job, slot)) {
      TruthfulMetadata(cfg, events, KeyOf(p.job, slot));
    }
  }

  /** Another program may create an object at this key, but it declares no hash other than that of its bytes. */
  ghost predicate Honest(cfg: Config, events: seq<Event>, key: string) {
    forall i :: 0 <= i < |events| && events[i].Intrude? && events[i].key == key ==>
      events[i].stored.declaredSha in {None, Some(cfg.sha(events[i].stored.body))}
  }

  /** Whoever created an object, the hash it declares, if any, is that of its bytes. */
  lemma {:induction false} HonestDeclares(cfg: Config, events: seq<Event>, key: string)
    requires cfg.attempts > 0 && Honest(cfg, events, key) && key in Reached(cfg, events).objects
    ensures var o := Reached(cfg, events).objects[key]; o.declaredSha in {None, Some(cfg.sha(o.body))}
  {
    var init, e := events[..|events| - 1], events[|events| - 1];
    var s := Reached(cfg, init);
    StepGrows(cfg, s, e);
    if key in s.objects {
      HonestDeclares(cfg, init, key);
    } else {
      NewObject(cfg, s, e, key);
      if Reached(cfg, events).objects[key].origin.Sent? {
        TruthfulMetadata(cfg, events, key);
      }
    }
  }

  /** Objects come from runs, unless another program creates them. */
  lemma NewObject(cfg: Config, s: System, e: Event, key: string)
    requires key !in s.objects && key in Step(cfg, s, e).objects
    ensures Step(cfg, s, e).objects[key].origin.Sent?
         || (e.Intrude? && e.key == key && Step(cfg, s, e).objects[key] == e.stored.(origin := Outsider))
  {
  }

  /**
   * End to end. Whatever happens after a service run has returned, its three objects are there; and if runs created
   * them, this one or others, a reader of their bytes finds what the run reported.
   */
  lemma StoredBundleReconciles(cfg: Config, events: seq<Event>, later: seq<Event>, w: nat, p: Plan,
                               result: IngestionResult, content: Bytes, items: seq<Evidence>)
    requires cfg.attempts > 0 && CanonicalConfig(cfg) && InjectiveHash(cfg)
    requires w in Reached(cfg, events).writers && Reached(cfg, events).writers[w] == Writer(p, Done)
    requires Reports(cfg, result, content, p, items)
    ensures AllThere(cfg, Reached(cfg, events + later), p)
    ensures CreatedByRuns(Reached(cfg, events + later), p) ==>
      && AllIntended(cfg, Reached(cfg, events + later), p)
      && ReadsBack(cfg, Reached(cfg, events + later), p, result, content, items)
  {
    var s := Reached(cfg, events + later);
    StaysThere(cfg, events, later, w, p);
    StoredBytesAreIntended(cfg, s, p);
    if CreatedByRuns(s, p) {
      RunsAreTruthful(cfg, events + later, p);
      IntendedReadsBack(cfg, s, p, result, content, items);
    }
  }

  /** So it is enough that no other program lies about the hash of what it writes to the bundle's keys. */
  lemma HonestBundleReconciles(cfg: Config, events: seq<Event>, later: seq<Event>, w: nat, p: Plan,
                               result: IngestionResult, content: Bytes, items: seq<Evidence>)
    requires cfg.attempts > 0 && CanonicalConfig(cfg) && InjectiveHash(cfg)
    requires w in Reached(cfg, events).writers && Reached(cfg, events).writers[w] == Writer(p, Done)
    requires Reports(cfg, result, content, p, items)
    requires forall slot: Slot :: Honest(cfg, events + later, KeyOf(p.job, slot))
    ensures AllIntended(cfg, Reached(cfg, events + later), p)
    ensures ReadsBack(cfg, Reached(cfg, events + later), p, result, content, items)
  {
    var s := Reached(cfg, events + later);
    StaysThere(cfg, events, later, w, p);
    forall slot: Slot ensures Truthful(cfg, s, KeyOf(p.job, slot)) {
      assert HoldsSlot(cfg, s, p, slot);
      HonestDeclares(cfg, events + later, KeyOf(p.job, slot));
    }
    StoredBytesAreIntended(cfg, s, p);
    IntendedReadsBack(cfg, s, p, result, content, items);
  }

  // ---- a declaration that is not honest passes for success ----

  /** After the probes another program creates an object with other bytes and the run's own declarations. */
  function Forgery(cfg: Config, p: Plan, other: Bytes): Event {
    Intrude(p.job.keys.artifact, Object(other, Some(|p.job.bytes|), Some(cfg.sha(p.job.bytes)), Outsider))
  }

  lemma ForgeryPasses(cfg: Config, events: seq<Event>, w: nat, p: Plan, other: Bytes)
    returns (longer: seq<Event>)
    requires |other| == |p.job.bytes| && w in Reached(cfg, events).writers && Reached(cfg, events).objects == map[]
    requires Reached(cfg, events).writers[w] == Writer(Plan(p.job, None), Putting(ARTIFACT, Ready(0, false)))
    ensures w in Reached(cfg, longer).writers && Reached(cfg, longer).writers[w] == Writer(Plan(p.job, None), Staging)
    ensures Reached(cfg, longer).objects.Keys == {p.job.keys.artifact}
    ensures Reached(cfg, longer).objects[p.job.keys.artifact].body == other
  {
    var forgery := Forgery(cfg, p, other);
    longer := events + [forgery];
    ThenStep(cfg, events, forgery);
    ThenStep(cfg, longer, Send(w));
    longer := longer + [Send(w)];
    ThenStep(cfg, longer, Respond(w, NoResponse));
    longer := longer + [Respond(w, NoResponse)];
    assert Reached(cfg, longer).writers[w].phase == Putting(ARTIFACT, Reconciling(0, false));
    ThenStep(cfg, longer, Head(w, p.job.keys.artifact, Seen));
    longer := longer + [Head(w, p.job.keys.artifact, Seen)];
  }

  /** For every bundle and all other bytes of the artifact's length there is a behaviour in which the run returns
      normally, its response to the artifact PUT lost, while the artifact's key holds the other bytes. */
  lemma SuccessMayCoverOtherBytes(cfg: Config, w: nat, p: Plan, other: Bytes)
    requires cfg.attempts > 0 && Fits(cfg, p) && |other| == |p.job.bytes|
    ensures exists events ::
      && w in Reached(cfg, events).writers && Reached(cfg, events).writers[w] == Writer(p, Done)
      && p.job.keys.artifact in Reached(cfg, events).objects
      && Reached(cfg, events).objects[p.job.keys.artifact].body == other
  {
    assert |PayloadOf(cfg, p, ARTIFACT)| <= cfg.maxBytes;
    var probed := ProbesMissing(cfg, w, p.job);
    var forged := ForgeryPasses(cfg, probed, w, p, other);
    var staged := EvidenceStaged(cfg, forged, w, p);
    var stored := PutApplied(cfg, staged, w, EVIDENCE);
    assert |PayloadOf(cfg, p, MARKER)| <= cfg.maxBytes;
    var done := PutApplied(cfg, stored, w, MARKER);
    assert Reached(cfg, done).writers[w] == Writer(p, Done);
    assert Reached(cfg, done).objects[p.job.keys.artifact].body == other;
  }

  /** The marker's member of this name describes an object that is in this directory, with its size and the hash it
      declares. */
  ghost predicate Names(cfg: Config, s: System, marker: Bytes, name: string, directory: string) {
    exists k :: (
      && k in s.objects && Dirname(k) == directory && s.objects[k].declaredSha.Some?
      && SaysStored(marker, name, "s3://" + cfg.bucket + "/" + k, |s.objects[k].body|, s.objects[k].declaredSha.value))
  }

  lemma PresentIsNamed(cfg: Config, s: System, marker: Bytes, name: string, directory: string, o: StoredObject)
    requires Present(cfg, s, directory, o) && SaysStored(marker, name, o.uri, o.size, o.sha256)
    ensures Names(cfg, s, marker, name, directory)
  {
    var k :| o.uri == Uri(cfg, k) && Dirname(k) == directory && Holds(s.objects, k, o.size, o.sha256);
    assert SaysStored(marker, name, "s3://" + cfg.bucket + "/" + k, |s.objects[k].body|,
      s.objects[k].declaredSha.value);
  }

  /** The commit marker as a reader sees it: whoever finds a _SUCCESS.json of a run and parses it can rely on the
      artifact and the evidence that its text names. */
  lemma {:induction false} MarkersAreReadable(cfg: Config, events: seq<Event>, key: string)
    requires cfg.attempts > 0 && CanonicalConfig(cfg)
    requires key in Reached(cfg, events).objects && Reached(cfg, events).objects[key].origin.Sent?
    requires Basename(key) == "_SUCCESS.json"
    ensures var s := Reached(cfg, events);
      && Names(cfg, s, s.objects[key].body, "artifact", Dirname(key))
      && Names(cfg, s, s.objects[key].body, "evidence_manifest", Dirname(key))
  {
    forall m, n | cfg.encode(m) == cfg.encode(n) ensures m == n {
      EncodeManifestInjective(m, n);
    }
    CommitMarkerSafety(cfg, events, key);
    var s := Reached(cfg, events);
    var m :| cfg.encode(m) == s.objects[key].body;
    ManifestSaid(m);
    PresentIsNamed(cfg, s, s.objects[key].body, "artifact", Dirname(key), m.artifact);
    PresentIsNamed(cfg, s, s.objects[key].body, "evidence_manifest", Dirname(key), m.evidence);
  }
}
