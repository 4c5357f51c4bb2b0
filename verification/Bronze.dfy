/** The Bronze models, field by field, and the file suffix they validate. */
module Bronze {
  import opened Basics
  import opened Decimals

  datatype Source = Met | Aic
  datatype Outcome = Accepted | AcceptedWithWarnings | Quarantined | Rejected
  datatype RetrievalStatus = NotRequested | Available | Cached | Unavailable | RetrievalFailed
  datatype IngestionMode = FullSnapshot | Incremental

  predicate IsUuid(s: string) {
    |s| == 36 && forall i :: 0 <= i < |s| ==> s[i] == '-' || IsDigit(s[i]) || 'a' <= s[i] <= 'f'
  }

  type Uuid = s: string | IsUuid(s) witness seq(36, _ => '0')

  datatype DateParts = DateParts(year: nat, month: nat, day: nat)
  type Date = d: DateParts | 1 <= d.year <= 9999 && 1 <= d.month <= 12 && 1 <= d.day <= 31 witness DateParts(1, 1, 1)

  /** An aware datetime: its ISO text and its calendar day in UTC. */
  datatype Instant = Instant(text: string, utcDate: Date)

  // ---- file suffixes ----

  predicate IsAlnum(c: char) { IsDigit(c) || 'a' <= c <= 'z' }

  predicate IsSuffixSeparator(c: char) { c == '.' || c == '_' || c == '-' }

  /** SAFE_EXTENSION as a two-state automaton; `inWord` says that the last character read was alphanumeric. */
  predicate MatchesSafeExtension(s: string, inWord: bool := false) {
    if s == "" then inWord
    else if IsAlnum(s[0]) then MatchesSafeExtension(s[1..], true)
    else inWord && IsSuffixSeparator(s[0]) && MatchesSafeExtension(s[1..], false)
  }

  function NormalizeExtension(value: string): Option<string> {
    var bare := if "." <= value then value[1..] else value;
    var normalized := Lower(bare);
    if |normalized| > 32 || !MatchesSafeExtension(normalized) then None else Some(normalized)
  }

  type Extension = s: string | |s| <= 32 && MatchesSafeExtension(s) witness "z"

  predicate InWord(c: char) { 'a' <= c <= 'z' || '0' <= c <= '9' }

  /** What the pattern accepts: words of letters and digits, one separator between neighbours. */
  ghost predicate IsSafeExtension(s: string) {
    && s != "" && InWord(s[0]) && InWord(s[|s| - 1])
    && (forall i :: 0 <= i < |s| ==> InWord(s[i]) || s[i] in "._-")
    && (forall i :: 0 <= i < |s| - 1 ==> InWord(s[i]) || InWord(s[i + 1]))
  }

  lemma {:induction false} SafeExtensionAfterWord(s: string)
    ensures MatchesSafeExtension(s, true)
       <==> s == "" || IsSafeExtension(s) || (IsSuffixSeparator(s[0]) && IsSafeExtension(s[1..]))
    decreases |s|, 1
  {
    if s != "" && IsAlnum(s[0]) {
      SafeExtensionMeaning(s);
    } else if s != "" && IsSuffixSeparator(s[0]) {
      SafeExtensionMeaning(s[1..]);
    }
  }

  lemma {:induction false} SafeExtensionMeaning(s: string)
    ensures MatchesSafeExtension(s) <==> IsSafeExtension(s)
    decreases |s|, 0
  {
    if s != "" && IsAlnum(s[0]) {
      var t := s[1..];
      SafeExtensionAfterWord(t);
      if IsSafeExtension(s) {
        if t != "" && !IsAlnum(t[0]) {
          assert IsAlnum(s[1]) || IsAlnum(s[0]);
          assert |t| > 1;
          assert s[2] == t[1] && (IsAlnum(s[1]) || IsAlnum(s[2]));
          forall i | 0 <= i < |t[1..]| - 1 ensures IsAlnum(t[1..][i]) || IsAlnum(t[1..][i + 1]) {
            assert s[i + 2] == t[1..][i] && s[i + 3] == t[1..][i + 1];
          }
        } else if t != "" {
          forall i | 0 <= i < |t| - 1 ensures IsAlnum(t[i]) || IsAlnum(t[i + 1]) {
            assert s[i + 1] == t[i] && s[i + 2] == t[i + 1];
          }
        }
      }
    }
  }

  lemma {:induction false} SafeExtensionIsLower(s: string, inWord: bool)
    requires MatchesSafeExtension(s, inWord)
    ensures Lower(s) == s
  {
    if s != "" {
      SafeExtensionIsLower(s[1..], IsAlnum(s[0]));
      assert forall i :: 0 <= i < |s| - 1 ==> Lower(s[1..])[i] == LowerChar(s[i + 1]) == s[i + 1];
    }
  }

  /** Whatever the validator returns is a safe suffix, and validating it again changes nothing. */
  lemma NormalizeExtensionIdempotent(value: string)
    requires NormalizeExtension(value).Some?
    ensures var r := NormalizeExtension(value).value;
      |r| <= 32 && IsSafeExtension(r) && NormalizeExtension(r) == Some(r)
  {
    var r := NormalizeExtension(value).value;
    SafeExtensionIsLower(r, false);
    SafeExtensionMeaning(r);
  }

  /** The result is the given text without one leading dot, in small letters; it is refused exactly when that is not a
      safe suffix of at most 32 characters. */
  lemma {:induction false} NormalizeExtensionMeaning(value: string, bare: string)
    requires value == "." + bare || (value == bare && (bare == "" || bare[0] != '.'))
    ensures NormalizeExtension(value).Some? <==> |bare| <= 32 && IsSafeExtension(Lower(bare))
    ensures NormalizeExtension(value).Some? ==>
      var r := NormalizeExtension(value).value;
      SpellsAnyCase(bare, r) && HasNoCapitals(r) && NormalizeExtension(r) == Some(r)
  {
    assert ("." + bare)[1..] == bare;
    SafeExtensionMeaning(Lower(bare));
    LowerHasNoCapitals(bare);
    if NormalizeExtension(value).Some? {
      NormalizeExtensionIdempotent(value);
    }
  }

  // ---- acquisition artifacts ----

  datatype Artifact = Artifact(
    source: Source,
    runId: Uuid,
    retrievedAt: Instant,
    sourceUrl: string,
    mediaType: string,
    extension: Extension,
    contractVersion: string,
    expectedSha256: Option<string>)

  // ---- record evidence ----

  datatype Message = Message(ruleId: string, message: string, field: Option<string>)

  datatype ContractResult = ContractResult(outcome: Outcome, messages: seq<Message>)

  datatype SourceRecord = SourceRecord(
    id: Uuid,
    createdAt: string,
    museumId: Uuid,
    source: Source,
    sourceRecordId: string,
    contractVersion: string,
    runId: Uuid,
    observedAt: string,
    sourceUrl: string,
    retrievalStatus: RetrievalStatus,
    retrievedAt: string,
    rawUri: string,
    mode: IngestionMode,
    rawChecksum: Option<string>,
    attributionText: Option<string>,
    outcome: Outcome)

  datatype Evidence = Evidence(provenance: SourceRecord, result: ContractResult)

  /** The per-outcome tally, with an entry for every outcome as dict.fromkeys makes it. */
  type Counts = m: map<Outcome, nat> | {Accepted, AcceptedWithWarnings, Quarantined, Rejected} <= m.Keys
    witness map[Accepted := 0, AcceptedWithWarnings := 0, Quarantined := 0, Rejected := 0]

  const NO_COUNTS: Counts := map[Accepted := 0, AcceptedWithWarnings := 0, Quarantined := 0, Rejected := 0]

  function CountOf(c: Counts, o: Outcome): nat {
    match o
    case Accepted => c[Accepted]
    case AcceptedWithWarnings => c[AcceptedWithWarnings]
    case Quarantined => c[Quarantined]
    case Rejected => c[Rejected]
  }

  /** counts[outcome] += 1. */
  function Bump(c: Counts, o: Outcome): (r: Counts)
    ensures forall p :: CountOf(r, p) == CountOf(c, p) + if p == o then 1 else 0
  {
    c[o := CountOf(c, o) + 1]
  }

  function Tally(items: seq<Evidence>): Counts {
    if items == [] then NO_COUNTS
    else Bump(Tally(items[..|items| - 1]), items[|items| - 1].result.outcome)
  }

  function TotalOf(c: Counts): nat {
    c[Accepted] + c[AcceptedWithWarnings] + c[Quarantined] + c[Rejected]
  }

  lemma TallySnoc(items: seq<Evidence>, i: nat)
    requires i < |items|
    ensures Tally(items[..i + 1]) == Bump(Tally(items[..i]), items[i].result.outcome)
  {
    assert items[..i + 1][..i] == items[..i];
  }

  /** The outcomes partition the records. */
  lemma {:induction false} TallyTotal(items: seq<Evidence>)
    ensures TotalOf(Tally(items)) == |items|
  {
    if items != [] {
      TallyTotal(items[..|items| - 1]);
      var c, o := Tally(items[..|items| - 1]), items[|items| - 1].result.outcome;
      assert forall p :: CountOf(Bump(c, o), p) == CountOf(c, p) + if p == o then 1 else 0;
      assert CountOf(c, Accepted) == c[Accepted] && CountOf(c, Rejected) == c[Rejected];
    }
  }

  /** The effect of the last item on the counts. */
  lemma {:induction false} LastCounts(items: seq<Evidence>)
    requires items != []
    ensures var n := |items| - 1;
      var t, u, o := Tally(items[..n]), Tally(items), items[n].result.outcome;
      && u[Accepted] == t[Accepted] + (if o.Accepted? then 1 else 0)
      && u[AcceptedWithWarnings] == t[AcceptedWithWarnings] + (if o.AcceptedWithWarnings? then 1 else 0)
      && u[Quarantined] == t[Quarantined] + (if o.Quarantined? then 1 else 0)
      && u[Rejected] == t[Rejected] + (if o.Rejected? then 1 else 0)
  {
    var t, u, o := Tally(items[..|items| - 1]), Tally(items), items[|items| - 1].result.outcome;
    assert u == Bump(t, o);
    assert forall p :: CountOf(u, p) == CountOf(t, p) + if p == o then 1 else 0;
    CountsAreEntries(t);
    CountsAreEntries(u);
  }

  lemma CountsAreEntries(c: Counts)
    ensures CountOf(c, Accepted) == c[Accepted] && CountOf(c, AcceptedWithWarnings) == c[AcceptedWithWarnings]
    ensures CountOf(c, Quarantined) == c[Quarantined] && CountOf(c, Rejected) == c[Rejected]
  {
  }

  // ---- the bundle ----

  datatype StoredObject = StoredObject(uri: string, size: nat, sha256: string)

  datatype Manifest = Manifest(
    source: Source,
    runId: Uuid,
    retrievedAt: string,
    sourceUrl: string,
    contractVersion: string,
    artifact: StoredObject,
    evidence: StoredObject,
    totalRecords: nat,
    outcomeCounts: Counts,
    contractMessages: seq<Message>)

  datatype Receipt = Receipt(
    source: Source,
    runId: Uuid,
    artifact: StoredObject,
    evidence: StoredObject,
    completionUri: string)

  datatype Target = Target(artifactUri: string, evidenceUri: string, completionUri: string)
}
