/** What the evidence of a whole snapshot says about its rows. */
module MetAccounting {
  import opened Basics
  import opened Bronze
  import opened Decimals
  import opened MetContract
  import opened MetCsv

  /** The rows whose Object ID is not a positive integer. */
  function RowsWithoutId(rows: seq<Row>): set<int> { NoneIndices(IdColumn(rows)) }

  function NoneIndices(ids: seq<Option<int>>): set<int> {
    set i | 0 <= i < |ids| && ids[i].None?
  }

  lemma NoneIndicesSnoc(ids: seq<Option<int>>, id: Option<int>)
    ensures |NoneIndices(ids + [id])| == |NoneIndices(ids)| + if id.None? then 1 else 0
  {
    if id.None? {
      assert NoneIndices(ids + [id]) == NoneIndices(ids) + {|ids|};
    } else {
      assert NoneIndices(ids + [id]) == NoneIndices(ids);
    }
  }

  ghost predicate RepeatsEarlier(rows: seq<Row>, i: nat)
    requires i < |rows|
  {
    IdOf(rows[i]).Some? && exists j :: 0 <= j < i && IdOf(rows[j]) == IdOf(rows[i])
  }

  lemma InSomeValues(ids: seq<Option<int>>, n: int)
    ensures n in SomeValues(ids) <==> exists j :: 0 <= j < |ids| && ids[j] == Some(n)
  {
  }

  lemma InIdsBefore(rows: seq<Row>, i: nat, n: int)
    requires i <= |rows|
    ensures n in IdsIn(rows[..i]) <==> exists j :: 0 <= j < i && IdOf(rows[j]) == Some(n)
  {
    var ids := IdColumn(rows[..i]);
    InSomeValues(ids, n);
    assert |ids| == i && forall j :: 0 <= j < i ==> ids[j] == IdOf(rows[j]);
  }

  /** A row is rejected exactly when an earlier row has the same parsed ID, and quarantined exactly when it has none. */
  lemma OutcomeMeaning(ctx: Context, rows: seq<Row>, i: nat, isIso: string -> bool, entityIds: nat -> Uuid)
    requires i < |rows|
    ensures var o := EvidenceAt(ctx, rows, i, isIso, entityIds).result.outcome;
      && (o == Rejected <==> RepeatsEarlier(rows, i))
      && (o == Quarantined <==> IdOf(rows[i]).None?)
  {
    VerdictMeaning(RowPayload(rows[i]), isIso);
    if IdOf(rows[i]).Some? {
      InIdsBefore(rows, i, IdOf(rows[i]).value);
    }
  }

  lemma EvidencePrefix(ctx: Context, rows: seq<Row>, n: nat, isIso: string -> bool, entityIds: nat -> Uuid)
    requires n <= |rows|
    ensures EvidenceOf(ctx, rows[..n], isIso, entityIds) == EvidenceOf(ctx, rows, isIso, entityIds)[..n]
  {
    forall i | 0 <= i < n
      ensures EvidenceAt(ctx, rows[..n], i, isIso, entityIds) == EvidenceAt(ctx, rows, i, isIso, entityIds)
    {
      assert rows[..n][..i] == rows[..i];
    }
  }

  /**
   * For every sequence of rows: those accepted, with or without warnings, are as many as there are distinct
   * positive IDs; those quarantined are as many as the rows without one; the rest are rejected.
   */
  lemma {:induction false} DedupAccounting(ctx: Context, rows: seq<Row>, isIso: string -> bool, entityIds: nat -> Uuid)
    ensures var t := Tally(EvidenceOf(ctx, rows, isIso, entityIds));
      && t[Accepted] + t[AcceptedWithWarnings] == |IdsIn(rows)|
      && t[Quarantined] == |RowsWithoutId(rows)|
      && t[Rejected] == |rows| - |IdsIn(rows)| - |RowsWithoutId(rows)|
  {
    var items := EvidenceOf(ctx, rows, isIso, entityIds);
    if rows == [] {
      assert items == [] && IdsIn(rows) == {} && RowsWithoutId(rows) == {};
    } else {
      var n := |rows| - 1;
      DedupAccounting(ctx, rows[..n], isIso, entityIds);
      EvidencePrefix(ctx, rows, n, isIso, entityIds);
      OutcomeMeaning(ctx, rows, n, isIso, entityIds);
      LastRow(rows);
      LastCounts(items);
    }
  }

  lemma SomeValuesCount(ids: seq<Option<int>>, id: Option<int>)
    ensures |SomeValues(ids + [id])| == |SomeValues(ids)| + if id.Some? && id.value !in SomeValues(ids) then 1 else 0
  {
    SomeValuesSnoc(ids, id);
  }

  /** The effect of the last row on the two sets. */
  lemma LastRow(rows: seq<Row>)
    requires rows != []
    ensures var n := |rows| - 1;
      && |IdsIn(rows)| == |IdsIn(rows[..n])| + (if IdOf(rows[n]).Some? && !RepeatsEarlier(rows, n) then 1 else 0)
      && |RowsWithoutId(rows)| == |RowsWithoutId(rows[..n])| + (if IdOf(rows[n]).None? then 1 else 0)
  {
    var n := |rows| - 1;
    var init, id := rows[..n], IdOf(rows[n]);
    assert IdColumn(rows) == IdColumn(init) + [id];
    NoneIndicesSnoc(IdColumn(init), id);
    SomeValuesCount(IdColumn(init), id);
    if id.Some? {
      InIdsBefore(rows, n, id.value);
    }
  }

  // ---- identities ----

  lemma {:induction false} ColonMarksFallback(ctx: Context, number: nat, n: nat)
    ensures RowRecordId(ctx, None, number) != PrintNat(n)
  {
    var fallback := RowRecordId(ctx, None, number);
    assert fallback[|ctx.runId|] == ':';
    assert ':' in fallback && !IsDigit(':');
  }

  lemma FallbackInjective(ctx: Context, m: nat, n: nat)
    requires RowRecordId(ctx, None, m) == RowRecordId(ctx, None, n)
    ensures m == n
  {
    var head := ctx.runId + ":row:";
    assert (head + PrintNat(m))[|head|..] == PrintNat(m) && (head + PrintNat(n))[|head|..] == PrintNat(n);
    PrintNatInjective(m, n);
  }

  /** Among the records that are not rejected no two have the same source record ID. */
  lemma IdentityUniqueness(ctx: Context, rows: seq<Row>, i: nat, j: nat, isIso: string -> bool, entityIds: nat -> Uuid)
    requires i < j < |rows|
    ensures var items := EvidenceOf(ctx, rows, isIso, entityIds);
      items[i].result.outcome != Rejected && items[j].result.outcome != Rejected ==>
        items[i].provenance.sourceRecordId != items[j].provenance.sourceRecordId
  {
    OutcomeMeaning(ctx, rows, j, isIso, entityIds);
    var a, b := IdOf(rows[i]), IdOf(rows[j]);
    var x, y := RowRecordId(ctx, a, i + FIRST_ROW_NUMBER), RowRecordId(ctx, b, j + FIRST_ROW_NUMBER);
    assert EvidenceAt(ctx, rows, i, isIso, entityIds).provenance.sourceRecordId == x;
    assert EvidenceAt(ctx, rows, j, isIso, entityIds).provenance.sourceRecordId == y;
    if x == y && !RepeatsEarlier(rows, j) {
      if a.Some? && b.Some? {
        PrintNatInjective(a.value, b.value);
      } else if a.Some? {
        ColonMarksFallback(ctx, j + FIRST_ROW_NUMBER, a.value);
      } else if b.Some? {
        ColonMarksFallback(ctx, i + FIRST_ROW_NUMBER, b.value);
      } else {
        FallbackInjective(ctx, i + FIRST_ROW_NUMBER, j + FIRST_ROW_NUMBER);
      }
    }
  }

  // ---- what each item says of its row, in the row's own terms ----

  /** Decimal digits without a needless zero or a sign. */
  predicate IsPlainNumber(text: string) { text != "" && AllDigits(text) && (text[0] == '0' ==> |text| == 1) }

  lemma {:induction false} PrintedPlainly(n: nat)
    ensures IsPlainNumber(PrintNat(n)) && (PrintNat(n)[0] == '0' <==> n == 0)
  {
    if n >= 10 {
      PrintedPlainly(n / 10);
      assert PrintNat(n)[0] == PrintNat(n / 10)[0];
    }
  }

  /**
   * The record ID of a row whose Object ID writes a positive number is that number in plain digits; that of any other
   * row is the run's ID, ":row:", and the row's number in the file, where the header is row 1.
   */
  lemma {:induction false} RecordIdentity(ctx: Context, rows: seq<Row>, i: nat, isIso: string -> bool,
                                          entityIds: nat -> Uuid)
    requires i < |rows|
    ensures var text := EvidenceAt(ctx, rows, i, isIso, entityIds).provenance.sourceRecordId;
      var id := ParsePositiveObjectId(Get(rows[i], "Object ID"));
      if id.Some? then IsPlainNumber(text) && ParsePositiveObjectId(Text(text)) == id
      else exists number ::
        text == ctx.runId + ":row:" + number && IsPlainNumber(number) && ParseInt(number) == Some(i + 2)
  {
    var id := IdOf(rows[i]);
    if id.Some? {
      PrintedPlainly(id.value);
      ParsePrintedId(id.value);
    } else {
      PrintedPlainly(i + 2);
      ParsePrintInt(i + 2);
      assert RowRecordId(ctx, None, i + FIRST_ROW_NUMBER) == ctx.runId + ":row:" + PrintNat(i + 2);
    }
  }

  /** The other fields of an item, one by one. */
  lemma RecordFields(ctx: Context, rows: seq<Row>, i: nat, isIso: string -> bool, entityIds: nat -> Uuid)
    requires i < |rows|
    ensures var p := EvidenceAt(ctx, rows, i, isIso, entityIds).provenance;
      && p.id == entityIds(i)
      && p.source == Met && p.museumId == ctx.museumId
      && p.runId == ctx.runId && p.contractVersion == ctx.contractVersion
      && p.createdAt == ctx.observedAt && p.observedAt == ctx.observedAt && p.retrievedAt == ctx.retrievedAt
      && p.sourceUrl == ctx.sourceUrl && p.rawUri == ctx.rawUri && p.rawChecksum == Some(ctx.rawChecksum)
      && p.retrievalStatus == Cached && p.mode == FullSnapshot
      && p.outcome == EvidenceAt(ctx, rows, i, isIso, entityIds).result.outcome
    ensures var artist := Get(rows[i], "Artist Display Name");
      var attribution := EvidenceAt(ctx, rows, i, isIso, entityIds).provenance.attributionText;
      if artist.Text? && |artist.text| > 0 then attribution == Some(artist.text) else attribution == None
  {
  }

  /** A row that repeats an earlier ID says so and nothing else; every other row gets the contract's result. */
  lemma RepeatsAndResults(ctx: Context, rows: seq<Row>, i: nat, isIso: string -> bool, entityIds: nat -> Uuid)
    requires i < |rows|
    ensures var result := EvidenceAt(ctx, rows, i, isIso, entityIds).result;
      var id := ParsePositiveObjectId(Get(rows[i], "Object ID"));
      if RepeatsEarlier(rows, i) then
        && result.outcome == Rejected && |result.messages| == 1
        && result.messages[0].ruleId == "duplicate_object_id"
        && result.messages[0].field == Some("Object ID")
        && result.messages[0].message == "Object ID " + PrintNat(id.value) + " repeats within this snapshot"
      else result == Verdict(rows[i] - {"__source_row_number"}, isIso)
  {
    if IdOf(rows[i]).Some? {
      InIdsBefore(rows, i, IdOf(rows[i]).value);
    }
  }
}
