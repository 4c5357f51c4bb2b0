/** MetCsvEvidenceReader: one item of evidence for each row, in order, with duplicates told apart as they come. */
module MetCsv {
  import opened Basics
  import opened Bronze
  import opened Decimals
  import opened MetContract

  const SOURCE_ROW_COLUMN := "__source_row_number"
  const FIRST_ROW_NUMBER := 2

  datatype Context = Context(
    museumId: Uuid,
    runId: Uuid,
    observedAt: string,
    retrievedAt: string,
    sourceUrl: string,
    rawUri: string,
    rawChecksum: string,
    contractVersion: string)

  // ---- the evidence of a row, given the IDs seen before it ----

  /** The row dict without the scanner's row number. */
  function RowPayload(row: Row): Row { row - {SOURCE_ROW_COLUMN} }

  function IdOf(row: Row): Option<int> { ParsePositiveObjectId(Get(RowPayload(row), "Object ID")) }

  function RowRecordId(ctx: Context, id: Option<int>, number: nat): string
    requires id.Some? ==> id.value > 0
  {
    if id.Some? then PrintNat(id.value) else ctx.runId + ":row:" + PrintNat(number)
  }

  function Duplicate(id: int): ContractResult {
    var message := "Object ID " + PrintInt(id) + " repeats within this snapshot";
    ContractResult(Rejected, [Message("duplicate_object_id", message, Some("Object ID"))])
  }

  function ResultFor(payload: Row, seen: set<int>, isIso: string -> bool): ContractResult {
    var id := ParsePositiveObjectId(Get(payload, "Object ID"));
    if id.Some? && id.value in seen then Duplicate(id.value) else Verdict(payload, isIso)
  }

  /** `entityId` is the UUID drawn for the record. */
  function EvidenceFor(ctx: Context, payload: Row, number: nat, seen: set<int>, isIso: string -> bool,
                       entityId: Uuid): Evidence {
    var id := ParsePositiveObjectId(Get(payload, "Object ID"));
    var result := ResultFor(payload, seen, isIso);
    var artist := Get(payload, "Artist Display Name");
    Evidence(
      SourceRecord(entityId, ctx.observedAt, ctx.museumId, Met, RowRecordId(ctx, id, number), ctx.contractVersion,
        ctx.runId, ctx.observedAt, ctx.sourceUrl, Cached, ctx.retrievedAt, ctx.rawUri, FullSnapshot,
        Some(ctx.rawChecksum),
        if artist.Text? && artist.text != "" then Some(artist.text) else None, result.outcome),
      result)
  }

  // ---- the specification, row by row ----

  /** Polars numbers the data rows from 2. */
  ghost predicate Numbered(rows: seq<Row>) {
    forall i :: 0 <= i < |rows| ==>
      SOURCE_ROW_COLUMN in rows[i] && rows[i][SOURCE_ROW_COLUMN] == Number(i + FIRST_ROW_NUMBER)
  }

  function IdColumn(rows: seq<Row>): seq<Option<int>> {
    seq(|rows|, i requires 0 <= i < |rows| => IdOf(rows[i]))
  }

  function SomeValues(ids: seq<Option<int>>): set<int> {
    set i | 0 <= i < |ids| && ids[i].Some? :: ids[i].value
  }

  /** The positive IDs of these rows. */
  function IdsIn(rows: seq<Row>): set<int> { SomeValues(IdColumn(rows)) }

  function EvidenceAt(ctx: Context, rows: seq<Row>, i: nat, isIso: string -> bool, entityIds: nat -> Uuid): Evidence
    requires i < |rows|
  {
    EvidenceFor(ctx, RowPayload(rows[i]), i + FIRST_ROW_NUMBER, IdsIn(rows[..i]), isIso, entityIds(i))
  }

  function EvidenceOf(ctx: Context, rows: seq<Row>, isIso: string -> bool,
                      entityIds: nat -> Uuid): (items: seq<Evidence>)
    ensures |items| == |rows|
    ensures forall i :: 0 <= i < |rows| ==> items[i] == EvidenceAt(ctx, rows, i, isIso, entityIds)
  {
    seq(|rows|, i requires 0 <= i < |rows| => EvidenceAt(ctx, rows, i, isIso, entityIds))
  }

  lemma SomeValuesSnoc(ids: seq<Option<int>>, id: Option<int>)
    ensures SomeValues(ids + [id]) == SomeValues(ids) + if id.Some? then {id.value} else {}
  {
    var longer := ids + [id];
    forall n ensures n in SomeValues(longer) <==> n in SomeValues(ids) || id == Some(n) {
      if n in SomeValues(ids) {
        var j :| 0 <= j < |ids| && ids[j] == Some(n);
        assert longer[j] == ids[j];
      }
      if id == Some(n) {
        assert longer[|ids|] == id;
      }
    }
  }

  lemma IdsInSnoc(rows: seq<Row>, i: nat)
    requires i < |rows|
    ensures IdsIn(rows[..i + 1]) == IdsIn(rows[..i]) + if IdOf(rows[i]).Some? then {IdOf(rows[i]).value} else {}
  {
    assert IdColumn(rows[..i + 1]) == IdColumn(rows[..i]) + [IdOf(rows[i])];
    SomeValuesSnoc(IdColumn(rows[..i]), IdOf(rows[i]));
  }

  // ---- the reader ----

  /** The set of object IDs that one pass shares between its rows. */
  class SeenObjectIds {
    var ids: set<int>

    constructor ()
      ensures ids == {}
    {
      ids := {};
    }
  }

  datatype ReaderResult = Read(items: seq<Evidence>) | ParseError(items: seq<Evidence>)

  class MetCsvEvidenceReader {
    const batchSize: nat
    const contract: MetRowContract

    constructor (batchSize: nat)
      requires batchSize >= 1
      ensures this.batchSize == batchSize
    {
      this.batchSize := batchSize;
      contract := new MetRowContract();
    }

    method EvidenceForRow(payload: Row, number: nat, seen: SeenObjectIds, ctx: Context, isIso: string -> bool,
                          entityId: Uuid)
      returns (e: Evidence)
      modifies seen
      ensures e == EvidenceFor(ctx, payload, number, old(seen.ids), isIso, entityId)
      ensures var id := ParsePositiveObjectId(Get(payload, "Object ID"));
        seen.ids == old(seen.ids) + if id.Some? then {id.value} else {}
    {
      var objectId := ParsePositiveObjectId(Get(payload, "Object ID"));
      var recordId := RowRecordId(ctx, objectId, number);
      var result;
      if objectId.Some? && objectId.value in seen.ids {
        result := Duplicate(objectId.value);
      } else {
        if objectId.Some? {
          seen.ids := seen.ids + {objectId.value};
        }
        result := contract.Validate(payload, isIso);
      }
      var artist := Get(payload, "Artist Display Name");
      var provenance := SourceRecord(entityId, ctx.observedAt, ctx.museumId, Met, recordId, ctx.contractVersion,
        ctx.runId, ctx.observedAt, ctx.sourceUrl, Cached, ctx.retrievedAt, ctx.rawUri, FullSnapshot,
        Some(ctx.rawChecksum),
        if artist.Text? && artist.text != "" then Some(artist.text) else None, result.outcome);
      return Evidence(provenance, result);
    }

    /** One batch: `items` grow by the evidence of its rows. */
    method BatchEvidence(batch: seq<Row>, before: seq<Evidence>, seen: SeenObjectIds, ctx: Context,
                         isIso: string -> bool, entityIds: nat -> Uuid, ghost rows: seq<Row>)
      returns (items: seq<Evidence>)
      requires |before| + |batch| <= |rows| && Numbered(rows)
      requires forall k :: 0 <= k < |batch| ==> batch[k] == rows[|before| + k]
      requires AllAsSpecified(before, ctx, rows, isIso, entityIds) && seen.ids == IdsIn(rows[..|before|])
      modifies seen
      ensures |items| == |before| + |batch|
      ensures AllAsSpecified(items, ctx, rows, isIso, entityIds) && seen.ids == IdsIn(rows[..|items|])
    {
      items := before;
      var k := 0;
      while k < |batch|
        invariant 0 <= k <= |batch| && |items| == |before| + k
        invariant AllAsSpecified(items, ctx, rows, isIso, entityIds)
        invariant seen.ids == IdsIn(rows[..|items|])
      {
        var row := batch[k];
        var sourceRowNumber := Get(row, SOURCE_ROW_COLUMN);
        var payload := row - {SOURCE_ROW_COLUMN};
        IdsInSnoc(rows, |items|);
        var item := EvidenceForRow(payload, sourceRowNumber.n, seen, ctx, isIso, entityIds(|items|));
        AsSpecifiedSnoc(items, item, ctx, rows, isIso, entityIds);
        items := items + [item];
        k := k + 1;
      }
    }

    /** However the rows are cut into batches, the items are those of the row-by-row specification. `fails` says
        that the scanner raises after these batches. */
    method IterEvidence(batches: seq<seq<Row>>, fails: bool, ctx: Context, isIso: string -> bool,
                        entityIds: nat -> Uuid)
      returns (r: ReaderResult)
      requires Numbered(Flatten(batches))
      ensures r == if fails then ParseError(EvidenceOf(ctx, Flatten(batches), isIso, entityIds))
                   else Read(EvidenceOf(ctx, Flatten(batches), isIso, entityIds))
    {
      ghost var rows := Flatten(batches);
      var seen := new SeenObjectIds();
      var items: seq<Evidence> := [];
      var b := 0;
      while b < |batches|
        invariant 0 <= b <= |batches|
        invariant |items| == |Flatten(batches[..b])|
        invariant AllAsSpecified(items, ctx, rows, isIso, entityIds)
        invariant seen.ids == IdsIn(rows[..|items|])
      {
        BatchIsSlice(batches, b);
        items := BatchEvidence(batches[b], items, seen, ctx, isIso, entityIds, rows);
        b := b + 1;
      }
      assert batches[..b] == batches;
      assert items == EvidenceOf(ctx, rows, isIso, entityIds);
      return if fails then ParseError(items) else Read(items);
    }
  }

  /** These are the items of the first rows. */
  ghost predicate AllAsSpecified(items: seq<Evidence>, ctx: Context, rows: seq<Row>, isIso: string -> bool,
                                 entityIds: nat -> Uuid) {
    |items| <= |rows| && forall i :: 0 <= i < |items| ==> items[i] == EvidenceAt(ctx, rows, i, isIso, entityIds)
  }

  lemma AsSpecifiedSnoc(items: seq<Evidence>, item: Evidence, ctx: Context, rows: seq<Row>, isIso: string -> bool,
                        entityIds: nat -> Uuid)
    requires AllAsSpecified(items, ctx, rows, isIso, entityIds) && |items| < |rows|
    requires item == EvidenceAt(ctx, rows, |items|, isIso, entityIds)
    ensures AllAsSpecified(items + [item], ctx, rows, isIso, entityIds)
  {
  }

  lemma BatchIsSlice(batches: seq<seq<Row>>, b: nat)
    requires b < |batches|
    ensures var start := |Flatten(batches[..b])|;
      && start + |batches[b]| == |Flatten(batches[..b + 1])| <= |Flatten(batches)|
      && forall k :: 0 <= k < |batches[b]| ==> Flatten(batches)[start + k] == batches[b][k]
  {
    FlattenSnoc(batches, b);
    FlattenAppend(batches[..b + 1], batches[b + 1..]);
    assert batches[..b + 1] + batches[b + 1..] == batches;
  }
}
