/** What the lines and the marker say to a reader who knows nothing of this program but the names of the members. */
module BundleText {
  import opened Basics
  import opened Bronze
  import opened BronzeJson
  import opened Json
  import opened JsonMembers
  import opened Ndjson
  import JsonTheorems

  // ---- members by name ----

  function Top(b: Bytes, key: string): Option<Json> { MemberOf(ParseDocument(b), key) }

  function Under(b: Bytes, outer: string, inner: string): Option<Json> { MemberOf(Top(b, outer), inner) }

  predicate Is(v: Option<Json>, text: string) { v == Some(JString(text)) }

  predicate IsInt(v: Option<Json>, n: int) { v == Some(JInt(n)) }

  predicate IsOptional(v: Option<Json>, text: Option<string>) {
    v == Some(if text.Some? then JString(text.value) else JNull)
  }

  // ---- the words ----

  predicate IsOutcome(text: string, o: Outcome) {
    match o
    case Accepted => text == "accepted"
    case AcceptedWithWarnings => text == "accepted_with_warnings"
    case Quarantined => text == "quarantined"
    case Rejected => text == "rejected"
  }

  predicate IsSource(text: string, s: Source) { match s case Met => text == "met" case Aic => text == "aic" }

  predicate IsStatus(text: string, s: RetrievalStatus) {
    match s
    case NotRequested => text == "not_requested"
    case Available => text == "available"
    case Cached => text == "cached"
    case Unavailable => text == "unavailable"
    case RetrievalFailed => text == "failed"
  }

  predicate IsMode(text: string, m: IngestionMode) {
    match m case FullSnapshot => text == "full_snapshot" case Incremental => text == "incremental"
  }

  lemma Words(o: Outcome, s: Source, t: RetrievalStatus, m: IngestionMode)
    ensures IsOutcome(OutcomeText(o), o) && IsSource(SourceText(s), s)
    ensures IsStatus(StatusText(t), t) && IsMode(ModeText(m), m)
  {
  }

  /** The value is the text for this outcome. */
  predicate IsOutcomeValue(v: Option<Json>, o: Outcome) { v.Some? && v.value.JString? && IsOutcome(v.value.text, o) }

  predicate IsSourceValue(v: Option<Json>, s: Source) { v.Some? && v.value.JString? && IsSource(v.value.text, s) }

  // ---- messages ----

  ghost predicate SaysMessage(v: Json, m: Message) {
    && Is(Member(v, "rule_id"), m.ruleId)
    && Is(Member(v, "message"), m.message)
    && IsOptional(Member(v, "field"), m.field)
  }

  ghost predicate SaysMessages(v: Option<Json>, messages: seq<Message>) {
    && v.Some? && v.value.JArray? && |v.value.items| == |messages|
    && forall i :: 0 <= i < |messages| ==> SaysMessage(v.value.items[i], messages[i])
  }

  lemma MessageSaid(m: Message)
    ensures SaysMessage(Normalize(MessageJson(m)), m)
  {
    var v := MessageJson(m);
    var f := v.fields;
    assert |f[0].key| == 7 && |f[1].key| == 7 && |f[2].key| == 5 && f[0].key[0] == 'r' && f[1].key[0] == 'm';
    FindAt(f, 0);
    FindAt(f, 1);
    FindAt(f, 2);
    MemberOfNormalized(v, "rule_id");
    MemberOfNormalized(v, "message");
    MemberOfNormalized(v, "field");
  }

  lemma MessagesSaid(messages: seq<Message>)
    ensures SaysMessages(Some(Normalize(JArray(MessagesJson(messages)))), messages)
  {
    var items := NormalizeItems(MessagesJson(messages));
    forall i | 0 <= i < |messages| ensures SaysMessage(items[i], messages[i]) {
      MessageSaid(messages[i]);
    }
  }

  // ---- the completion marker ----

  /** The object under this name is described by its URI, size and hash. */
  ghost predicate SaysStored(b: Bytes, name: string, uri: string, size: nat, sha: string) {
    && Is(Under(b, name, "uri"), uri)
    && IsInt(Under(b, name, "size_bytes"), size)
    && Is(Under(b, name, "sha256"), sha)
  }

  /** The marker's counts, outcome by outcome. */
  ghost predicate SaysCounts(b: Bytes, accepted: int, withWarnings: int, quarantined: int, rejected: int) {
    && IsInt(Under(b, "outcome_counts", "accepted"), accepted)
    && IsInt(Under(b, "outcome_counts", "accepted_with_warnings"), withWarnings)
    && IsInt(Under(b, "outcome_counts", "quarantined"), quarantined)
    && IsInt(Under(b, "outcome_counts", "rejected"), rejected)
  }

  lemma StoredSaid(o: StoredObject)
    ensures var v := Some(Normalize(StoredJson(o)));
      Is(MemberOf(v, "uri"), o.uri) && IsInt(MemberOf(v, "size_bytes"), o.size) && Is(MemberOf(v, "sha256"), o.sha256)
  {
    var v := StoredJson(o);
    var f := v.fields;
    assert |f[0].key| == 3 && |f[1].key| == 10 && |f[2].key| == 6;
    FindAt(f, 0);
    FindAt(f, 1);
    FindAt(f, 2);
    MemberOfNormalized(v, "uri");
    MemberOfNormalized(v, "size_bytes");
    MemberOfNormalized(v, "sha256");
  }

  lemma CountsSaid(c: Counts)
    ensures var v := Some(Normalize(CountsJson(c)));
      && IsInt(MemberOf(v, "accepted"), c[Accepted])
      && IsInt(MemberOf(v, "accepted_with_warnings"), c[AcceptedWithWarnings])
      && IsInt(MemberOf(v, "quarantined"), c[Quarantined])
      && IsInt(MemberOf(v, "rejected"), c[Rejected])
  {
    var v := CountsJson(c);
    var f := v.fields;
    assert |f[0].key| == 8 && |f[1].key| == 22 && |f[2].key| == 11 && |f[3].key| == 8;
    assert f[0].key[0] == 'a' && f[3].key[0] == 'r';
    FindAt(f, 0);
    FindAt(f, 1);
    FindAt(f, 2);
    FindAt(f, 3);
    MemberOfNormalized(v, "accepted");
    MemberOfNormalized(v, "accepted_with_warnings");
    MemberOfNormalized(v, "quarantined");
    MemberOfNormalized(v, "rejected");
  }

  /** Enough of a name to tell the names below apart: its length and its first two letters. */
  function Signature(s: string): int
    requires |s| >= 2
  {
    |s| * 1000000 + s[0] as int * 1000 + s[1] as int
  }

  /** Fields are found by names that have different signatures. */
  lemma {:induction false} FindSigned(fields: seq<Field>, names: seq<string>, i: nat)
    requires |fields| == |names| && i < |names| && forall k :: 0 <= k < |names| ==> fields[k].key == names[k]
    requires forall k :: 0 <= k < |names| ==> |names[k]| >= 2
    requires forall j :: i < j < |names| ==> Signature(names[j]) != Signature(names[i])
    ensures Find(fields, names[i]) == Some(fields[i].value)
  {
    forall j | i < j < |fields| ensures fields[j].key != fields[i].key {
      assert Signature(names[j]) != Signature(names[i]);
    }
    FindAt(fields, i);
  }

  const MANIFEST_NAMES: seq<string> :=
    ["source", "ingestion_run_id", "retrieved_at", "source_url", "contract_version",
     "artifact", "evidence_manifest", "total_records", "outcome_counts", "contract_messages"]

  const MANIFEST_SIGNATURES: seq<int> :=
    [6115111, 16105110, 12114101, 10115111, 16099111,
     8097114, 17101118, 13116111, 14111117, 17099111]

  lemma ManifestSignatures(i: nat)
    requires i < 10
    ensures |MANIFEST_NAMES| == |MANIFEST_SIGNATURES| == 10
    ensures |MANIFEST_NAMES[i]| >= 2 && Signature(MANIFEST_NAMES[i]) == MANIFEST_SIGNATURES[i]
  {
  }

  lemma ManifestSignaturesDiffer(i: nat, j: nat)
    requires i < j < 10
    ensures MANIFEST_SIGNATURES[i] != MANIFEST_SIGNATURES[j]
  {
  }

  lemma ManifestFields(m: Manifest)
    ensures var f := ManifestJson(m).fields;
      |f| == |MANIFEST_NAMES| == 10 && forall i :: 0 <= i < |f| ==> f[i].key == MANIFEST_NAMES[i]
  {
  }

  lemma FindInManifest(m: Manifest, i: nat)
    requires i < 10
    ensures |ManifestJson(m).fields| == |MANIFEST_NAMES| == 10
    ensures Member(ManifestJson(m), MANIFEST_NAMES[i]) == Some(ManifestJson(m).fields[i].value)
  {
    ManifestFields(m);
    forall k | 0 <= k < 10 ensures |MANIFEST_NAMES[k]| >= 2 && Signature(MANIFEST_NAMES[k]) == MANIFEST_SIGNATURES[k] {
      ManifestSignatures(k);
    }
    forall j | i < j < 10 ensures Signature(MANIFEST_NAMES[j]) != Signature(MANIFEST_NAMES[i]) {
      ManifestSignaturesDiffer(i, j);
    }
    FindSigned(ManifestJson(m).fields, MANIFEST_NAMES, i);
  }

  lemma ManifestMembers1(m: Manifest)
    ensures var v := ManifestJson(m);
      && Member(v, "source") == Some(JString(SourceText(m.source)))
      && Member(v, "ingestion_run_id") == Some(JString(m.runId))
      && Member(v, "retrieved_at") == Some(JString(m.retrievedAt))
      && Member(v, "source_url") == Some(JString(m.sourceUrl))
      && Member(v, "contract_version") == Some(JString(m.contractVersion))
  {
    FindInManifest(m, 0);
    FindInManifest(m, 1);
    FindInManifest(m, 2);
    FindInManifest(m, 3);
    FindInManifest(m, 4);
  }

  lemma ManifestMembers2(m: Manifest)
    ensures var v := ManifestJson(m);
      && Member(v, "artifact") == Some(StoredJson(m.artifact))
      && Member(v, "evidence_manifest") == Some(StoredJson(m.evidence))
      && Member(v, "total_records") == Some(JInt(m.totalRecords))
      && Member(v, "outcome_counts") == Some(CountsJson(m.outcomeCounts))
      && Member(v, "contract_messages") == Some(JArray(MessagesJson(m.contractMessages)))
  {
    FindInManifest(m, 5);
    FindInManifest(m, 6);
    FindInManifest(m, 7);
    FindInManifest(m, 8);
    FindInManifest(m, 9);
  }

  /** Everything that the marker of a manifest says, member by member. */
  ghost predicate SaysManifest(b: Bytes, m: Manifest) {
    && IsSourceValue(Top(b, "source"), m.source)
    && Is(Top(b, "ingestion_run_id"), m.runId)
    && Is(Top(b, "retrieved_at"), m.retrievedAt)
    && Is(Top(b, "source_url"), m.sourceUrl)
    && Is(Top(b, "contract_version"), m.contractVersion)
    && SaysStored(b, "artifact", m.artifact.uri, m.artifact.size, m.artifact.sha256)
    && SaysStored(b, "evidence_manifest", m.evidence.uri, m.evidence.size, m.evidence.sha256)
    && IsInt(Top(b, "total_records"), m.totalRecords)
    && SaysCounts(b, m.outcomeCounts[Accepted], m.outcomeCounts[AcceptedWithWarnings], m.outcomeCounts[Quarantined],
         m.outcomeCounts[Rejected])
    && SaysMessages(Top(b, "contract_messages"), m.contractMessages)
  }

  lemma TopOfCanonical(v: Json, key: string)
    ensures Top(Canonical(v), key) == match Member(v, key) case None => None case Some(m) => Some(Normalize(m))
  {
    JsonTheorems.CanonicalRoundTrip(v);
    MemberOfNormalized(v, key);
  }

  lemma ManifestSaid1(m: Manifest)
    ensures var b := EncodeManifest(m);
      && IsSourceValue(Top(b, "source"), m.source)
      && Is(Top(b, "ingestion_run_id"), m.runId)
      && Is(Top(b, "retrieved_at"), m.retrievedAt)
      && Is(Top(b, "source_url"), m.sourceUrl)
      && Is(Top(b, "contract_version"), m.contractVersion)
  {
    var v := ManifestJson(m);
    ManifestMembers1(m);
    Words(Accepted, m.source, Cached, FullSnapshot);
    TopOfCanonical(v, "source");
    TopOfCanonical(v, "ingestion_run_id");
    TopOfCanonical(v, "retrieved_at");
    TopOfCanonical(v, "source_url");
    TopOfCanonical(v, "contract_version");
  }

  lemma ManifestSaid2(m: Manifest)
    ensures var b := EncodeManifest(m);
      && SaysStored(b, "artifact", m.artifact.uri, m.artifact.size, m.artifact.sha256)
      && SaysStored(b, "evidence_manifest", m.evidence.uri, m.evidence.size, m.evidence.sha256)
  {
    var v := ManifestJson(m);
    ManifestMembers2(m);
    TopOfCanonical(v, "artifact");
    TopOfCanonical(v, "evidence_manifest");
    StoredSaid(m.artifact);
    StoredSaid(m.evidence);
  }

  lemma ManifestSaid3(m: Manifest)
    ensures var b := EncodeManifest(m);
      && IsInt(Top(b, "total_records"), m.totalRecords)
      && SaysCounts(b, m.outcomeCounts[Accepted], m.outcomeCounts[AcceptedWithWarnings],
           m.outcomeCounts[Quarantined], m.outcomeCounts[Rejected])
      && SaysMessages(Top(b, "contract_messages"), m.contractMessages)
  {
    var v := ManifestJson(m);
    ManifestMembers2(m);
    TopOfCanonical(v, "total_records");
    TopOfCanonical(v, "outcome_counts");
    TopOfCanonical(v, "contract_messages");
    CountsSaid(m.outcomeCounts);
    MessagesSaid(m.contractMessages);
  }

  /** The bytes of a marker say what its manifest says. */
  lemma ManifestSaid(m: Manifest)
    ensures SaysManifest(EncodeManifest(m), m)
  {
    ManifestSaid1(m);
    ManifestSaid2(m);
    ManifestSaid3(m);
  }

  // ---- a line of evidence ----

  /** Everything that the line of a record says of its origin, member by member. */
  ghost predicate SaysProvenance(b: Bytes, p: SourceRecord) {
    && SaysIdentity(b, p)
    && SaysRetrieval(b, p)
    && IsOptional(Under(b, "provenance", "attribution_text"), p.attributionText)
    && IsOutcomeValue(Under(b, "provenance", "outcome"), p.outcome)
  }

  ghost predicate SaysIdentity(b: Bytes, p: SourceRecord) {
    && Is(Under(b, "provenance", "id"), p.id)
    && Is(Under(b, "provenance", "created_at"), p.createdAt)
    && Is(Under(b, "provenance", "museum_id"), p.museumId)
    && IsSourceValue(Under(b, "provenance", "source"), p.source)
    && Is(Under(b, "provenance", "source_record_id"), p.sourceRecordId)
    && Is(Under(b, "provenance", "contract_version"), p.contractVersion)
    && Is(Under(b, "provenance", "ingestion_run_id"), p.runId)
  }

  ghost predicate SaysRetrieval(b: Bytes, p: SourceRecord) {
    && Is(Under(b, "provenance", "observed_at"), p.observedAt)
    && Is(Under(b, "provenance", "source_url"), p.sourceUrl)
    && IsStatusValue(Under(b, "provenance", "retrieval_status"), p.retrievalStatus)
    && Is(Under(b, "provenance", "retrieved_at"), p.retrievedAt)
    && Is(Under(b, "provenance", "raw_uri"), p.rawUri)
    && IsModeValue(MemberOf(Under(b, "provenance", "acquisition_context"), "mode"), p.mode)
    && IsOptional(Under(b, "provenance", "raw_checksum"), p.rawChecksum)
  }

  predicate IsStatusValue(v: Option<Json>, s: RetrievalStatus) {
    v.Some? && v.value.JString? && IsStatus(v.value.text, s)
  }

  predicate IsModeValue(v: Option<Json>, m: IngestionMode) { v.Some? && v.value.JString? && IsMode(v.value.text, m) }

  /** The line says everything about its record. */
  ghost predicate SaysRecord(b: Bytes, e: Evidence) {
    && SaysProvenance(b, e.provenance)
    && IsOutcomeValue(Under(b, "result", "outcome"), e.result.outcome)
    && SaysMessages(Under(b, "result", "messages"), e.result.messages)
  }

  /** The members of a record's origin. */
  const PROVENANCE_NAMES: seq<string> :=
    ["id", "created_at", "museum_id", "source", "source_record_id", "contract_version",
     "ingestion_run_id", "observed_at", "source_url", "retrieval_status", "retrieved_at",
     "raw_uri", "acquisition_context", "raw_checksum", "attribution_text", "outcome"]

  const PROVENANCE_SIGNATURES: seq<int> :=
    [2105100, 10099114, 9109117, 6115111, 16115111, 16099111,
     16105110, 11111098, 10115111, 16114101, 12114101,
     7114097, 19097099, 12114097, 16097116, 7111117]

  lemma SignaturesOfNames(i: nat)
    requires i < 16
    ensures |PROVENANCE_NAMES| == |PROVENANCE_SIGNATURES| == 16
    ensures |PROVENANCE_NAMES[i]| >= 2 && Signature(PROVENANCE_NAMES[i]) == PROVENANCE_SIGNATURES[i]
  {
  }

  lemma SignaturesDiffer(i: nat, j: nat)
    requires i < j < 16
    ensures PROVENANCE_SIGNATURES[i] != PROVENANCE_SIGNATURES[j]
  {
  }

  lemma ProvenanceNames(p: SourceRecord)
    ensures var f := RecordJson(p).fields;
      |f| == |PROVENANCE_NAMES| == 16 && forall i :: 0 <= i < |f| ==> f[i].key == PROVENANCE_NAMES[i]
  {
  }

  lemma {:induction false} FindNamed(fields: seq<Field>, i: nat)
    requires |fields| == |PROVENANCE_NAMES| == 16 && i < 16
    requires forall k :: 0 <= k < |fields| ==> fields[k].key == PROVENANCE_NAMES[k]
    ensures Find(fields, PROVENANCE_NAMES[i]) == Some(fields[i].value)
  {
    forall k | 0 <= k < 16
      ensures |PROVENANCE_NAMES[k]| >= 2 && Signature(PROVENANCE_NAMES[k]) == PROVENANCE_SIGNATURES[k]
    {
      SignaturesOfNames(k);
    }
    forall j | i < j < 16 ensures Signature(PROVENANCE_NAMES[j]) != Signature(PROVENANCE_NAMES[i]) {
      SignaturesDiffer(i, j);
    }
    FindSigned(fields, PROVENANCE_NAMES, i);
  }

  lemma RecordMembers1(p: SourceRecord)
    ensures var v := RecordJson(p);
      && Member(v, "id") == Some(JString(p.id))
      && Member(v, "created_at") == Some(JString(p.createdAt))
      && Member(v, "museum_id") == Some(JString(p.museumId))
      && Member(v, "source") == Some(JString(SourceText(p.source)))
  {
    var f := RecordJson(p).fields;
    ProvenanceNames(p);
    FindNamed(f, 0);
    FindNamed(f, 1);
    FindNamed(f, 2);
    FindNamed(f, 3);
  }

  lemma RecordMembers2(p: SourceRecord)
    ensures var v := RecordJson(p);
      && Member(v, "source_record_id") == Some(JString(p.sourceRecordId))
      && Member(v, "contract_version") == Some(JString(p.contractVersion))
      && Member(v, "ingestion_run_id") == Some(JString(p.runId))
      && Member(v, "observed_at") == Some(JString(p.observedAt))
  {
    var f := RecordJson(p).fields;
    ProvenanceNames(p);
    FindNamed(f, 4);
    FindNamed(f, 5);
    FindNamed(f, 6);
    FindNamed(f, 7);
  }

  lemma RecordMembers3(p: SourceRecord)
    ensures var v := RecordJson(p);
      && Member(v, "source_url") == Some(JString(p.sourceUrl))
      && Member(v, "retrieval_status") == Some(JString(StatusText(p.retrievalStatus)))
      && Member(v, "retrieved_at") == Some(JString(p.retrievedAt))
      && Member(v, "raw_uri") == Some(JString(p.rawUri))
  {
    var f := RecordJson(p).fields;
    ProvenanceNames(p);
    FindNamed(f, 8);
    FindNamed(f, 9);
    FindNamed(f, 10);
    FindNamed(f, 11);
  }

  lemma RecordMembers4(p: SourceRecord)
    ensures var v := RecordJson(p);
      && Member(v, "acquisition_context") == Some(JObject([Field("mode", JString(ModeText(p.mode)))]))
      && Member(v, "raw_checksum") == Some(OptionalText(p.rawChecksum))
      && Member(v, "attribution_text") == Some(OptionalText(p.attributionText))
      && Member(v, "outcome") == Some(JString(OutcomeText(p.outcome)))
  {
    var f := RecordJson(p).fields;
    ProvenanceNames(p);
    FindNamed(f, 12);
    FindNamed(f, 13);
    FindNamed(f, 14);
    FindNamed(f, 15);
  }

  lemma LineParts(e: Evidence)
    ensures Top(EvidenceLine(e), "provenance") == Some(Normalize(RecordJson(e.provenance)))
    ensures Top(EvidenceLine(e), "result") == Some(Normalize(ResultJson(e.result)))
  {
    var v := EvidenceJson(e);
    var f := v.fields;
    assert f[0].key == "provenance" && f[1].key == "result" && |f[0].key| == 10 && |f[1].key| == 6;
    FindAt(f, 0);
    FindAt(f, 1);
    TopOfCanonical(v, "provenance");
    TopOfCanonical(v, "result");
  }

  lemma ProvenanceMember(e: Evidence, key: string)
    ensures Under(EvidenceLine(e), "provenance", key)
         == match Member(RecordJson(e.provenance), key) case None => None case Some(m) => Some(Normalize(m))
  {
    LineParts(e);
    MemberOfNormalized(RecordJson(e.provenance), key);
  }

  lemma IdentitySaid(e: Evidence)
    ensures SaysIdentity(EvidenceLine(e), e.provenance)
  {
    RecordMembers1(e.provenance);
    RecordMembers2(e.provenance);
    Words(Accepted, e.provenance.source, Cached, FullSnapshot);
    ProvenanceMember(e, "id");
    ProvenanceMember(e, "created_at");
    ProvenanceMember(e, "museum_id");
    ProvenanceMember(e, "source");
    ProvenanceMember(e, "source_record_id");
    ProvenanceMember(e, "contract_version");
    ProvenanceMember(e, "ingestion_run_id");
  }

  lemma ModeSaid(m: IngestionMode)
    ensures IsModeValue(MemberOf(Some(Normalize(JObject([Field("mode", JString(ModeText(m)))]))), "mode"), m)
  {
    var v := JObject([Field("mode", JString(ModeText(m)))]);
    Words(Accepted, Met, Cached, m);
    FindAt(v.fields, 0);
    MemberOfNormalized(v, "mode");
  }

  lemma RetrievalSaid(e: Evidence)
    ensures SaysRetrieval(EvidenceLine(e), e.provenance)
  {
    RecordMembers2(e.provenance);
    RecordMembers3(e.provenance);
    RecordMembers4(e.provenance);
    Words(Accepted, Met, e.provenance.retrievalStatus, FullSnapshot);
    ModeSaid(e.provenance.mode);
    ProvenanceMember(e, "observed_at");
    ProvenanceMember(e, "source_url");
    ProvenanceMember(e, "retrieval_status");
    ProvenanceMember(e, "retrieved_at");
    ProvenanceMember(e, "raw_uri");
    ProvenanceMember(e, "acquisition_context");
    ProvenanceMember(e, "raw_checksum");
  }

  lemma ProvenanceSaid(e: Evidence)
    ensures SaysProvenance(EvidenceLine(e), e.provenance)
  {
    IdentitySaid(e);
    RetrievalSaid(e);
    RecordMembers4(e.provenance);
    Words(e.provenance.outcome, Met, Cached, FullSnapshot);
    ProvenanceMember(e, "attribution_text");
    ProvenanceMember(e, "outcome");
  }

  lemma ResultSaid(e: Evidence)
    ensures IsOutcomeValue(Under(EvidenceLine(e), "result", "outcome"), e.result.outcome)
    ensures SaysMessages(Under(EvidenceLine(e), "result", "messages"), e.result.messages)
  {
    var v := ResultJson(e.result);
    var f := v.fields;
    LineParts(e);
    assert f[0].key == "outcome" && f[1].key == "messages" && |f[0].key| == 7 && |f[1].key| == 8;
    FindAt(f, 0);
    FindAt(f, 1);
    MemberOfNormalized(v, "outcome");
    MemberOfNormalized(v, "messages");
    Words(e.result.outcome, Met, Cached, FullSnapshot);
    MessagesSaid(e.result.messages);
  }

  /** The line of a record says everything about it. */
  lemma RecordSaid(e: Evidence)
    ensures SaysRecord(EvidenceLine(e), e)
  {
    ProvenanceSaid(e);
    ResultSaid(e);
  }

  // ---- counting lines by their outcome ----

  /** How many lines say this outcome. */
  function LinesSaying(lines: seq<Bytes>, text: string): nat {
    if lines == [] then 0
    else
      var n := |lines| - 1;
      LinesSaying(lines[..n], text) + if Is(Under(lines[n], "result", "outcome"), text) then 1 else 0
  }

  function OutcomeTexts(lines: seq<Bytes>): seq<Option<Json>> {
    seq(|lines|, i requires 0 <= i < |lines| => Under(lines[i], "result", "outcome"))
  }

  /** How many of these values are this text. */
  function Saying(values: seq<Option<Json>>, text: string): nat {
    if values == [] then 0
    else Saying(values[..|values| - 1], text) + if Is(values[|values| - 1], text) then 1 else 0
  }

  lemma {:induction false} LinesSayingIsSaying(lines: seq<Bytes>, text: string)
    ensures LinesSaying(lines, text) == Saying(OutcomeTexts(lines), text)
  {
    if lines != [] {
      var n := |lines| - 1;
      LinesSayingIsSaying(lines[..n], text);
      assert OutcomeTexts(lines)[..n] == OutcomeTexts(lines[..n]);
    }
  }

  lemma WordsDiffer(text: string, o: Outcome)
    requires IsOutcome(text, o)
    ensures text == "accepted" <==> o.Accepted?
    ensures text == "accepted_with_warnings" <==> o.AcceptedWithWarnings?
    ensures text == "quarantined" <==> o.Quarantined?
    ensures text == "rejected" <==> o.Rejected?
  {
    assert |"accepted"| == 8 && |"rejected"| == 8 && "accepted"[0] == 'a' && "rejected"[0] == 'r';
    assert |"accepted_with_warnings"| == 22 && |"quarantined"| == 11;
  }

  lemma {:induction false} TallyIsSaying(values: seq<Option<Json>>, items: seq<Evidence>)
    requires |values| == |items| && forall i :: 0 <= i < |items| ==> IsOutcomeValue(values[i], items[i].result.outcome)
    ensures Saying(values, "accepted") == Tally(items)[Accepted]
    ensures Saying(values, "accepted_with_warnings") == Tally(items)[AcceptedWithWarnings]
    ensures Saying(values, "quarantined") == Tally(items)[Quarantined]
    ensures Saying(values, "rejected") == Tally(items)[Rejected]
  {
    if items != [] {
      var n := |items| - 1;
      assert forall i :: 0 <= i < n ==> values[..n][i] == values[i] && items[..n][i] == items[i];
      TallyIsSaying(values[..n], items[..n]);
      assert Saying(values, "accepted") == Saying(values[..n], "accepted") + if Is(values[n], "accepted") then 1 else 0;
      WordsDiffer(values[n].value.text, items[n].result.outcome);
      LastCounts(items);
    }
  }

  /** Splitting the evidence manifest at 0x0A gives one line for each record, in order, which says everything about
      it; and a reader who counts the lines by what they say finds the tally that was kept while they were written. */
  lemma {:induction false} PayloadSays(line: Evidence -> Bytes, items: seq<Evidence>)
    requires CanonicalLines(line)
    ensures var lines := SplitLines(Payload(line, items));
      && |lines| == |items| == TotalOf(Tally(items))
      && (forall i :: 0 <= i < |items| ==> SaysRecord(lines[i], items[i]))
      && LinesSaying(lines, "accepted") == Tally(items)[Accepted]
      && LinesSaying(lines, "accepted_with_warnings") == Tally(items)[AcceptedWithWarnings]
      && LinesSaying(lines, "quarantined") == Tally(items)[Quarantined]
      && LinesSaying(lines, "rejected") == Tally(items)[Rejected]
  {
    var lines := SplitLines(Payload(line, items));
    SplitPayload(line, items);
    TallyTotal(items);
    forall i | 0 <= i < |items| ensures SaysRecord(lines[i], items[i]) {
      RecordSaid(items[i]);
    }
    LinesTallied(lines, items);
  }

  lemma {:induction false} LinesTallied(lines: seq<Bytes>, items: seq<Evidence>)
    requires |lines| == |items| && forall i :: 0 <= i < |items| ==> SaysRecord(lines[i], items[i])
    ensures LinesSaying(lines, "accepted") == Tally(items)[Accepted]
    ensures LinesSaying(lines, "accepted_with_warnings") == Tally(items)[AcceptedWithWarnings]
    ensures LinesSaying(lines, "quarantined") == Tally(items)[Quarantined]
    ensures LinesSaying(lines, "rejected") == Tally(items)[Rejected]
  {
    TallyIsSaying(OutcomeTexts(lines), items);
    LinesSayingIsSaying(lines, "accepted");
    LinesSayingIsSaying(lines, "accepted_with_warnings");
    LinesSayingIsSaying(lines, "quarantined");
    LinesSayingIsSaying(lines, "rejected");
  }
}
