/** The dicts that model_dump(mode="json") makes of the Bronze models, and why their canonical text identifies them. */
module BronzeJson {
  import opened Basics
  import opened Bronze
  import opened Json
  import JsonTheorems

  function SourceText(s: Source): string {
    match s case Met => "met" case Aic => "aic"
  }

  function OutcomeText(o: Outcome): string {
    match o
    case Accepted => "accepted"
    case AcceptedWithWarnings => "accepted_with_warnings"
    case Quarantined => "quarantined"
    case Rejected => "rejected"
  }

  function StatusText(s: RetrievalStatus): string {
    match s
    case NotRequested => "not_requested"
    case Available => "available"
    case Cached => "cached"
    case Unavailable => "unavailable"
    case RetrievalFailed => "failed"
  }

  function ModeText(m: IngestionMode): string {
    match m case FullSnapshot => "full_snapshot" case Incremental => "incremental"
  }

  function OptionalText(t: Option<string>): Json {
    match t case None => JNull case Some(s) => JString(s)
  }

  function MessageJson(m: Message): Json {
    JObject([
      Field("rule_id", JString(m.ruleId)),
      Field("message", JString(m.message)),
      Field("field", OptionalText(m.field))])
  }

  function MessagesJson(messages: seq<Message>): (items: seq<Json>)
    ensures |items| == |messages|
    ensures forall i :: 0 <= i < |items| ==> items[i] == MessageJson(messages[i])
  {
    seq(|messages|, i requires 0 <= i < |messages| => MessageJson(messages[i]))
  }

  function ResultJson(r: ContractResult): Json {
    JObject([
      Field("outcome", JString(OutcomeText(r.outcome))),
      Field("messages", JArray(MessagesJson(r.messages)))])
  }

  function RecordJson(p: SourceRecord): Json {
    JObject([
      Field("id", JString(p.id)),
      Field("created_at", JString(p.createdAt)),
      Field("museum_id", JString(p.museumId)),
      Field("source", JString(SourceText(p.source))),
      Field("source_record_id", JString(p.sourceRecordId)),
      Field("contract_version", JString(p.contractVersion)),
      Field("ingestion_run_id", JString(p.runId)),
      Field("observed_at", JString(p.observedAt)),
      Field("source_url", JString(p.sourceUrl)),
      Field("retrieval_status", JString(StatusText(p.retrievalStatus))),
      Field("retrieved_at", JString(p.retrievedAt)),
      Field("raw_uri", JString(p.rawUri)),
      Field("acquisition_context", JObject([Field("mode", JString(ModeText(p.mode)))])),
      Field("raw_checksum", OptionalText(p.rawChecksum)),
      Field("attribution_text", OptionalText(p.attributionText)),
      Field("outcome", JString(OutcomeText(p.outcome)))])
  }

  function EvidenceJson(e: Evidence): Json {
    JObject([Field("provenance", RecordJson(e.provenance)), Field("result", ResultJson(e.result))])
  }

  function StoredJson(o: StoredObject): Json {
    JObject([Field("uri", JString(o.uri)), Field("size_bytes", JInt(o.size)), Field("sha256", JString(o.sha256))])
  }

  function CountsJson(c: Counts): Json {
    JObject([
      Field("accepted", JInt(c[Accepted])),
      Field("accepted_with_warnings", JInt(c[AcceptedWithWarnings])),
      Field("quarantined", JInt(c[Quarantined])),
      Field("rejected", JInt(c[Rejected]))])
  }

  function ManifestJson(m: Manifest): Json {
    JObject([
      Field("source", JString(SourceText(m.source))),
      Field("ingestion_run_id", JString(m.runId)),
      Field("retrieved_at", JString(m.retrievedAt)),
      Field("source_url", JString(m.sourceUrl)),
      Field("contract_version", JString(m.contractVersion)),
      Field("artifact", StoredJson(m.artifact)),
      Field("evidence_manifest", StoredJson(m.evidence)),
      Field("total_records", JInt(m.totalRecords)),
      Field("outcome_counts", CountsJson(m.outcomeCounts)),
      Field("contract_messages", JArray(MessagesJson(m.contractMessages)))])
  }

  /** One line of the evidence manifest, without its newline. */
  function EvidenceLine(e: Evidence): Bytes { Canonical(EvidenceJson(e)) }

  /** The bytes of _SUCCESS.json. */
  function EncodeManifest(m: Manifest): Bytes { Canonical(ManifestJson(m)) }

  // ---- values written from the same template are told apart by their canonical text ----

  /** Dicts list the same keys in the same places, at every depth. */
  ghost predicate SameShape(a: Json, b: Json)
    decreases a
  {
    match (a, b)
    case (JArray(xs), JArray(ys)) => forall i :: 0 <= i < |xs| && i < |ys| ==> SameShape(xs[i], ys[i])
    case (JObject(xs), JObject(ys)) =>
      && |xs| == |ys|
      && forall i :: 0 <= i < |xs| ==> xs[i].key == ys[i].key && SameShape(xs[i].value, ys[i].value)
    case _ => !a.JArray? && !a.JObject? && !b.JArray? && !b.JObject?
  }

  lemma {:induction false} InsertFieldInjective(f: Field, xs: seq<Field>, g: Field, ys: seq<Field>)
    requires f.key == g.key && |xs| == |ys| && forall i :: 0 <= i < |xs| ==> xs[i].key == ys[i].key
    requires InsertField(f, xs) == InsertField(g, ys)
    ensures f == g && xs == ys
  {
    var r, s := InsertField(f, xs), InsertField(g, ys);
    if xs == [] {
      assert r == [f] && s == [g];
      assert [f][0] == [g][0];
    } else {
      if TextLe(f.key, xs[0].key) {
        assert r == [f] + xs && s == [g] + ys;
        assert r[0] == f && s[0] == g;
        assert r[1..] == xs && s[1..] == ys;
      } else {
        assert r[0] == xs[0] && s[0] == ys[0];
        assert r[1..] == InsertField(f, xs[1..]) && s[1..] == InsertField(g, ys[1..]);
        InsertFieldInjective(f, xs[1..], g, ys[1..]);
        assert xs == [xs[0]] + xs[1..] && ys == [ys[0]] + ys[1..];
      }
    }
  }

  lemma {:induction false} InsertFieldKeys(f: Field, xs: seq<Field>, g: Field, ys: seq<Field>)
    requires f.key == g.key && |xs| == |ys| && forall i :: 0 <= i < |xs| ==> xs[i].key == ys[i].key
    ensures var r, s := InsertField(f, xs), InsertField(g, ys);
      |r| == |s| == |xs| + 1 && forall i :: 0 <= i < |r| ==> r[i].key == s[i].key
  {
    if xs != [] {
      InsertFieldKeys(f, xs[1..], g, ys[1..]);
    }
  }

  /** Sorting dicts with the same key list permutes them alike, so it loses nothing. */
  lemma {:induction false} SortFieldsInjective(xs: seq<Field>, ys: seq<Field>)
    requires |xs| == |ys| && forall i :: 0 <= i < |xs| ==> xs[i].key == ys[i].key
    ensures var r, s := SortFields(xs), SortFields(ys);
      |r| == |s| == |xs| && forall i :: 0 <= i < |r| ==> r[i].key == s[i].key
    ensures SortFields(xs) == SortFields(ys) ==> xs == ys
  {
    if xs != [] {
      SortFieldsInjective(xs[1..], ys[1..]);
      InsertFieldKeys(xs[0], SortFields(xs[1..]), ys[0], SortFields(ys[1..]));
      if SortFields(xs) == SortFields(ys) {
        InsertFieldInjective(xs[0], SortFields(xs[1..]), ys[0], SortFields(ys[1..]));
        assert xs == [xs[0]] + xs[1..] && ys == [ys[0]] + ys[1..];
      }
    }
  }

  lemma {:induction false} NormalizeInjective(a: Json, b: Json)
    requires SameShape(a, b) && Normalize(a) == Normalize(b)
    ensures a == b
    decreases a
  {
    match (a, b)
    case (JArray(xs), JArray(ys)) =>
      assert |NormalizeItems(xs)| == |NormalizeItems(ys)|;
      forall i | 0 <= i < |xs| ensures xs[i] == ys[i] {
        assert NormalizeItems(xs)[i] == NormalizeItems(ys)[i];
        NormalizeInjective(xs[i], ys[i]);
      }
    case (JObject(xs), JObject(ys)) =>
      SortFieldsInjective(NormalizeFields(xs), NormalizeFields(ys));
      forall i | 0 <= i < |xs| ensures xs[i] == ys[i] {
        assert NormalizeFields(xs)[i] == NormalizeFields(ys)[i];
        NormalizeInjective(xs[i].value, ys[i].value);
      }
    case _ =>
  }

  lemma {:induction false} CanonicalInjective(a: Json, b: Json)
    requires SameShape(a, b) && Canonical(a) == Canonical(b)
    ensures a == b
  {
    JsonTheorems.CanonicalDeterminesValue(a, b);
    NormalizeInjective(a, b);
  }

  lemma SourceTextInjective(a: Source, b: Source)
    requires SourceText(a) == SourceText(b)
    ensures a == b
  {
    assert SourceText(Met)[0] == 'm';
  }

  lemma OutcomeTextInjective(a: Outcome, b: Outcome)
    requires OutcomeText(a) == OutcomeText(b)
    ensures a == b
  {
    assert |OutcomeText(Accepted)| == |OutcomeText(Rejected)| && OutcomeText(Accepted)[0] == 'a';
  }

  lemma StatusTextInjective(a: RetrievalStatus, b: RetrievalStatus)
    requires StatusText(a) == StatusText(b)
    ensures a == b
  {
    assert StatusText(Cached)[0] == 'c';
  }

  lemma ModeTextInjective(a: IngestionMode, b: IngestionMode)
    requires ModeText(a) == ModeText(b)
    ensures a == b
  {
    assert |ModeText(Incremental)| == 11 && |ModeText(FullSnapshot)| == 13;
  }

  lemma MessagesJsonInjective(a: seq<Message>, b: seq<Message>)
    requires MessagesJson(a) == MessagesJson(b)
    ensures a == b
  {
    forall i | 0 <= i < |a| ensures a[i] == b[i] {
      assert MessageJson(a[i]) == MessagesJson(a)[i] == MessagesJson(b)[i] == MessageJson(b[i]);
      var x, y := MessageJson(a[i]).fields, MessageJson(b[i]).fields;
      assert x[0] == y[0] && x[1] == y[1] && x[2] == y[2];
    }
  }

  lemma RecordJsonInjective1(p: SourceRecord, q: SourceRecord)
    requires RecordJson(p) == RecordJson(q)
    ensures p.id == q.id && p.createdAt == q.createdAt && p.museumId == q.museumId && p.source == q.source
    ensures p.sourceRecordId == q.sourceRecordId && p.contractVersion == q.contractVersion
    ensures p.runId == q.runId && p.observedAt == q.observedAt
  {
    var x, y := RecordJson(p).fields, RecordJson(q).fields;
    assert x[0] == y[0] && x[1] == y[1] && x[2] == y[2] && x[3] == y[3];
    assert x[4] == y[4] && x[5] == y[5] && x[6] == y[6] && x[7] == y[7];
    SourceTextInjective(p.source, q.source);
  }

  lemma RecordJsonInjective2(p: SourceRecord, q: SourceRecord)
    requires RecordJson(p) == RecordJson(q)
    ensures p.sourceUrl == q.sourceUrl && p.retrievalStatus == q.retrievalStatus && p.retrievedAt == q.retrievedAt
    ensures p.rawUri == q.rawUri && p.mode == q.mode && p.rawChecksum == q.rawChecksum
    ensures p.attributionText == q.attributionText && p.outcome == q.outcome
  {
    var x, y := RecordJson(p).fields, RecordJson(q).fields;
    assert x[8] == y[8] && x[9] == y[9] && x[10] == y[10] && x[11] == y[11];
    assert x[12] == y[12] && x[13] == y[13] && x[14] == y[14] && x[15] == y[15];
    assert x[12].value.fields[0] == y[12].value.fields[0];
    StatusTextInjective(p.retrievalStatus, q.retrievalStatus);
    ModeTextInjective(p.mode, q.mode);
    OutcomeTextInjective(p.outcome, q.outcome);
  }

  lemma RecordJsonInjective(p: SourceRecord, q: SourceRecord)
    requires RecordJson(p) == RecordJson(q)
    ensures p == q
  {
    RecordJsonInjective1(p, q);
    RecordJsonInjective2(p, q);
  }

  lemma ResultJsonInjective(r: ContractResult, s: ContractResult)
    requires ResultJson(r) == ResultJson(s)
    ensures r == s
  {
    var x, y := ResultJson(r).fields, ResultJson(s).fields;
    assert x[0] == y[0] && x[1] == y[1];
    OutcomeTextInjective(r.outcome, s.outcome);
    MessagesJsonInjective(r.messages, s.messages);
  }

  lemma EvidenceJsonInjective(e: Evidence, f: Evidence)
    requires EvidenceJson(e) == EvidenceJson(f)
    ensures e == f
  {
    var x, y := EvidenceJson(e).fields, EvidenceJson(f).fields;
    assert x[0] == y[0] && x[1] == y[1];
    RecordJsonInjective(e.provenance, f.provenance);
    ResultJsonInjective(e.result, f.result);
  }

  lemma ManifestJsonInjective(m: Manifest, n: Manifest)
    requires ManifestJson(m) == ManifestJson(n)
    ensures m == n
  {
    var x, y := ManifestJson(m).fields, ManifestJson(n).fields;
    assert x[0] == y[0] && x[1] == y[1] && x[2] == y[2] && x[3] == y[3] && x[4] == y[4] && x[5] == y[5]
        && x[6] == y[6] && x[7] == y[7] && x[8] == y[8] && x[9] == y[9];
    SourceTextInjective(m.source, n.source);
    StoredJsonInjective(m.artifact, n.artifact);
    StoredJsonInjective(m.evidence, n.evidence);
    CountsJsonInjective(m.outcomeCounts, n.outcomeCounts);
    MessagesJsonInjective(m.contractMessages, n.contractMessages);
  }

  lemma StoredJsonInjective(a: StoredObject, b: StoredObject)
    requires StoredJson(a) == StoredJson(b)
    ensures a == b
  {
    var x, y := StoredJson(a).fields, StoredJson(b).fields;
    assert x[0] == y[0] && x[1] == y[1] && x[2] == y[2];
  }

  lemma CountsJsonInjective(a: Counts, b: Counts)
    requires CountsJson(a) == CountsJson(b)
    ensures a == b
  {
    var x, y := CountsJson(a).fields, CountsJson(b).fields;
    assert x[0] == y[0] && x[1] == y[1] && x[2] == y[2] && x[3] == y[3];
    forall o: Outcome ensures o in a && o in b && a[o] == b[o] {
      match o case Accepted => case AcceptedWithWarnings => case Quarantined => case Rejected =>
    }
  }

  lemma MessagesShape(a: seq<Message>, b: seq<Message>)
    ensures SameShape(JArray(MessagesJson(a)), JArray(MessagesJson(b)))
  {
    forall i | 0 <= i < |a| && i < |b| ensures SameShape(MessagesJson(a)[i], MessagesJson(b)[i]) {
      assert SameShape(MessageJson(a[i]), MessageJson(b[i]));
    }
  }

  lemma RecordShape(p: SourceRecord, q: SourceRecord)
    ensures SameShape(RecordJson(p), RecordJson(q))
  {
    var x, y := RecordJson(p).fields, RecordJson(q).fields;
    assert SameShape(x[12].value, y[12].value);
  }

  lemma ResultShape(r: ContractResult, s: ContractResult)
    ensures SameShape(ResultJson(r), ResultJson(s))
  {
    MessagesShape(r.messages, s.messages);
  }

  lemma EvidenceShape(e: Evidence, f: Evidence)
    ensures SameShape(EvidenceJson(e), EvidenceJson(f))
  {
    RecordShape(e.provenance, f.provenance);
    ResultShape(e.result, f.result);
  }

  lemma ManifestShape(m: Manifest, n: Manifest)
    ensures SameShape(ManifestJson(m), ManifestJson(n))
  {
    assert SameShape(StoredJson(m.artifact), StoredJson(n.artifact));
    assert SameShape(StoredJson(m.evidence), StoredJson(n.evidence));
    assert SameShape(CountsJson(m.outcomeCounts), CountsJson(n.outcomeCounts));
    MessagesShape(m.contractMessages, n.contractMessages);
  }

  /** No two records of evidence are written as the same line. */
  lemma EvidenceLineInjective(e: Evidence, f: Evidence)
    requires EvidenceLine(e) == EvidenceLine(f)
    ensures e == f
  {
    EvidenceShape(e, f);
    CanonicalInjective(EvidenceJson(e), EvidenceJson(f));
    EvidenceJsonInjective(e, f);
  }

  /** The bytes of a completion manifest determine every field of it. */
  lemma EncodeManifestInjective(m: Manifest, n: Manifest)
    requires EncodeManifest(m) == EncodeManifest(n)
    ensures m == n
  {
    ManifestShape(m, n);
    CanonicalInjective(ManifestJson(m), ManifestJson(n));
    ManifestJsonInjective(m, n);
  }
}
