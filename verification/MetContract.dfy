/** The Met row contract: what is said of one CSV row. */
module MetContract {
  import opened Basics
  import opened Bronze
  import opened Decimals

  /** A cell of a row dict: a missing value, text, or the row number that the scanner adds. */
  datatype Cell = Null | Text(text: string) | Number(n: int)

  type Row = map<string, Cell>

  /** row.get(field). */
  function Get(row: Row, field: string): Cell { if field in row then row[field] else Null }

  const RECOMMENDED_VALUE_FIELDS: seq<string> :=
    ["Object Number", "Department", "Object Name", "Title", "Link Resource", "Metadata Date", "Repository"]

  const PUBLIC_DOMAIN_VALUES: set<string> := {"true", "false"}

  function ParsePositiveObjectId(value: Cell): (id: Option<int>)
    ensures id.Some? ==> id.value > 0
  {
    if !value.Text? then None
    else match ParseInt(value.text)
      case Some(n) => if n > 0 then Some(n) else None
      case None => None
  }

  /** A cell is read as the positive number n exactly when its text writes n. */
  lemma ObjectIdMeaning(value: Cell, n: nat)
    requires n > 0
    ensures ParsePositiveObjectId(value) == Some(n)
       <==> value.Text? && exists before, sign, zeros, after :: Writes(value.text, before, sign, zeros, n, after)
  {
    if value.Text? {
      ParsePositiveMeaning(value.text, n);
    }
  }

  /** str(n) of a positive number is read back as that number. */
  lemma {:induction false} ParsePrintedId(n: nat)
    requires n > 0
    ensures ParsePositiveObjectId(Text(PrintNat(n))) == Some(n)
  {
    ParsePrintInt(n);
  }

  predicate IsBlank(value: Cell) { !value.Text? || Strip(value.text, IsSpace) == "" }

  function MissingValue(field: string): Message {
    Message("missing_recommended_value", field + " is blank", Some(field))
  }

  const INVALID_OBJECT_ID := Message("invalid_object_id", "Object ID must be a positive integer", Some("Object ID"))
  const INVALID_PUBLIC_DOMAIN :=
    Message("invalid_public_domain_value", "Is Public Domain must be True or False", Some("Is Public Domain"))
  const INVALID_METADATA_DATE :=
    Message("invalid_metadata_date", "Metadata Date must be an ISO-style date or timestamp", Some("Metadata Date"))

  /** value.replace("Z", "+00:00"). */
  function ReplaceZ(s: string): string {
    if s == "" then "" else (if s[0] == 'Z' then "+00:00" else [s[0]]) + ReplaceZ(s[1..])
  }

  predicate PublicDomainOk(row: Row) {
    var value := Get(row, "Is Public Domain");
    value.Text? && Lower(Strip(value.text, IsSpace)) in PUBLIC_DOMAIN_VALUES
  }

  /** `isIso` says which texts datetime.fromisoformat reads. */
  predicate MetadataDateOk(row: Row, isIso: string -> bool) {
    var value := Get(row, "Metadata Date");
    IsBlank(value) || isIso(ReplaceZ(Strip(value.text, IsSpace)))
  }

  /** The result as a function of the row; MetRowContract computes it. */
  function Verdict(row: Row, isIso: string -> bool): ContractResult {
    if ParsePositiveObjectId(Get(row, "Object ID")).None? then ContractResult(Quarantined, [INVALID_OBJECT_ID])
    else
      var messages := MissingMessages(row, RECOMMENDED_VALUE_FIELDS)
        + (if PublicDomainOk(row) then [] else [INVALID_PUBLIC_DOMAIN])
        + (if MetadataDateOk(row, isIso) then [] else [INVALID_METADATA_DATE]);
      ContractResult(if messages == [] then Accepted else AcceptedWithWarnings, messages)
  }

  function MissingMessages(row: Row, fields: seq<string>): seq<Message> {
    if fields == [] then []
    else
      var before, field := MissingMessages(row, fields[..|fields| - 1]), fields[|fields| - 1];
      if IsBlank(Get(row, field)) then before + [MissingValue(field)] else before
  }

  lemma {:induction false} NoMissingMessages(row: Row, fields: seq<string>)
    ensures MissingMessages(row, fields) == [] <==> forall i :: 0 <= i < |fields| ==> !IsBlank(Get(row, fields[i]))
  {
    if fields != [] {
      var init := fields[..|fields| - 1];
      NoMissingMessages(row, init);
      assert fields == init + [fields[|fields| - 1]];
      assert forall i :: 0 <= i < |init| ==> fields[i] == init[i];
    }
  }

  /** The outcomes of the contract alone: quarantined without a positive ID, accepted when nothing is amiss,
      accepted with warnings otherwise, and never rejected. */
  lemma VerdictMeaning(row: Row, isIso: string -> bool)
    ensures var v := Verdict(row, isIso);
      var hasId := ParsePositiveObjectId(Get(row, "Object ID")).Some?;
      && v.outcome != Rejected
      && (v.outcome == Quarantined <==> !hasId)
      && (v.outcome == Accepted <==> v.messages == [])
      && (v.outcome == Accepted <==> (hasId && PublicDomainOk(row) && MetadataDateOk(row, isIso)
            && forall i :: 0 <= i < |RECOMMENDED_VALUE_FIELDS| ==> !IsBlank(Get(row, RECOMMENDED_VALUE_FIELDS[i]))))
  {
    NoMissingMessages(row, RECOMMENDED_VALUE_FIELDS);
  }

  lemma {:induction false} MissingMeaning(row: Row, fields: seq<string>, m: Message)
    ensures m in MissingMessages(row, fields)
       <==> exists i :: 0 <= i < |fields| && IsBlank(Get(row, fields[i])) && m == MissingValue(fields[i])
  {
    if fields != [] {
      var init := fields[..|fields| - 1];
      MissingMeaning(row, init, m);
      assert forall i :: 0 <= i < |init| ==> fields[i] == init[i];
    }
  }

  /** A row with a positive ID is warned of exactly its blank recommended values, its flag and its date. */
  lemma WarningsMeaning(row: Row, isIso: string -> bool, m: Message)
    requires ParsePositiveObjectId(Get(row, "Object ID")).Some?
    ensures m in Verdict(row, isIso).messages <==>
      || (exists i :: 0 <= i < |RECOMMENDED_VALUE_FIELDS| && IsBlank(Get(row, RECOMMENDED_VALUE_FIELDS[i]))
            && m == MissingValue(RECOMMENDED_VALUE_FIELDS[i]))
      || (m == INVALID_PUBLIC_DOMAIN && !PublicDomainOk(row))
      || (m == INVALID_METADATA_DATE && !MetadataDateOk(row, isIso))
  {
    MissingMeaning(row, RECOMMENDED_VALUE_FIELDS, m);
  }

  // ---- the contract in the words of the row ----

  /** A cell without text, or with nothing but spaces. */
  predicate Blank(value: Cell) { !value.Text? || forall c :: c in value.text ==> IsSpace(c) }

  /** True or false in letters of any case, with spaces around. */
  ghost predicate SaysTrueOrFalse(value: Cell) {
    && value.Text?
    && ((exists word :: (SpellsAnyCase(word, "true") && Surrounds(value.text, word, IsSpace)))
        || (exists word :: (SpellsAnyCase(word, "false") && Surrounds(value.text, word, IsSpace))))
  }

  lemma BlankMeaning(value: Cell)
    ensures IsBlank(value) <==> Blank(value)
  {
    if value.Text? {
      StripIsEmpty(value.text, IsSpace);
    }
  }

  /** A word in letters of any case stands in a text with only spaces around it. */
  lemma WordMeaning(text: string, small: string)
    requires HasNoCapitals(small) && small != ""
    requires !IsSpace(small[0]) && !IsSpace(small[|small| - 1]) && NotSpaceInCapitals(small)
    ensures Lower(Strip(text, IsSpace)) == small
       <==> exists word :: (SpellsAnyCase(word, small) && Surrounds(text, word, IsSpace))
  {
    var core := Strip(text, IsSpace);
    LowerMeaning(core, small);
    if SpellsAnyCase(core, small) {
      StripIsMiddle(text, core, IsSpace);
    }
    if word :| SpellsAnyCase(word, small) && Surrounds(text, word, IsSpace) {
      StripIsMiddle(text, word, IsSpace);
    }
  }

  predicate NotSpaceInCapitals(small: string) {
    forall c :: (exists i :: 0 <= i < |small| && SameLetter(c, small[i])) ==> !IsSpace(c)
  }

  lemma TrueMeaning(text: string)
    ensures Lower(Strip(text, IsSpace)) == "true"
       <==> exists word :: (SpellsAnyCase(word, "true") && Surrounds(text, word, IsSpace))
  {
    WordMeaning(text, "true");
  }

  lemma FalseMeaning(text: string)
    ensures Lower(Strip(text, IsSpace)) == "false"
       <==> exists word :: (SpellsAnyCase(word, "false") && Surrounds(text, word, IsSpace))
  {
    WordMeaning(text, "false");
  }

  lemma PublicDomainMeaning(row: Row)
    ensures PublicDomainOk(row) <==> SaysTrueOrFalse(Get(row, "Is Public Domain"))
  {
    var value := Get(row, "Is Public Domain");
    if value.Text? {
      TrueMeaning(value.text);
      FalseMeaning(value.text);
    }
  }

  /** Every Z becomes +00:00 and everything else stays. */
  lemma {:induction false} ReplaceZMeaning(before: string, after: string)
    requires 'Z' !in before
    ensures ReplaceZ(before) == before && ReplaceZ(before + "Z" + after) == before + "+00:00" + ReplaceZ(after)
  {
    var s := before + "Z" + after;
    if before == "" {
      assert s[0] == 'Z' && s[1..] == after;
    } else {
      var c, tail := before[0], before[1..];
      ReplaceZMeaning(tail, after);
      assert c in before && s[0] == c && s[1..] == tail + "Z" + after;
      ConcatAssociative([c], tail, "+00:00");
      ConcatAssociative([c], tail + "+00:00", ReplaceZ(after));
      assert before == [c] + tail;
    }
  }

  /** Those of the messages that are due, in order. */
  function Due(messages: seq<(bool, Message)>): seq<Message> {
    if messages == [] then []
    else (if messages[0].0 then [messages[0].1] else []) + Due(messages[1..])
  }

  function BlankWarning(row: Row, field: string): (bool, Message) {
    (Blank(Get(row, field)), Message("missing_recommended_value", field + " is blank", Some(field)))
  }

  /** Blank after spaces are taken away, or read as a date once Z is written as an offset. */
  predicate ReadsAsDate(value: Cell, isIso: string -> bool) {
    Blank(value) || isIso(ReplaceZ(Strip(value.text, IsSpace)))
  }

  /** All the result is: for a row without a positive ID the one message about it; for any other row the warnings that
      are due, in this order, which decide the outcome. */
  lemma {:induction false} VerdictInWords(row: Row, isIso: string -> bool)
    ensures var v := Verdict(row, isIso);
      if ParsePositiveObjectId(Get(row, "Object ID")).None? then
        v == ContractResult(Quarantined,
               [Message("invalid_object_id", "Object ID must be a positive integer", Some("Object ID"))])
      else
        && (v.outcome == if v.messages == [] then Accepted else AcceptedWithWarnings)
        && v.messages == Due([
             BlankWarning(row, "Object Number"),
             BlankWarning(row, "Department"),
             BlankWarning(row, "Object Name"),
             BlankWarning(row, "Title"),
             BlankWarning(row, "Link Resource"),
             BlankWarning(row, "Metadata Date"),
             BlankWarning(row, "Repository"),
             (!PublicDomainOk(row), Message("invalid_public_domain_value", "Is Public Domain must be True or False",
               Some("Is Public Domain"))),
             (!ReadsAsDate(Get(row, "Metadata Date"), isIso), Message("invalid_metadata_date",
               "Metadata Date must be an ISO-style date or timestamp", Some("Metadata Date")))])
  {
    BlankMeaning(Get(row, "Metadata Date"));
    var public := (!PublicDomainOk(row), INVALID_PUBLIC_DOMAIN);
    var date := (!MetadataDateOk(row, isIso), INVALID_METADATA_DATE);
    MissingIsDue(row, RECOMMENDED_VALUE_FIELDS);
    DueAppend(BlankWarnings(row, RECOMMENDED_VALUE_FIELDS), [public, date]);
    DueOfTwo(public, date);
    WarningsListed(row, public, date);
  }

  lemma WarningsListed(row: Row, public: (bool, Message), date: (bool, Message))
    ensures BlankWarnings(row, RECOMMENDED_VALUE_FIELDS) + [public, date] == [
      BlankWarning(row, "Object Number"), BlankWarning(row, "Department"), BlankWarning(row, "Object Name"),
      BlankWarning(row, "Title"), BlankWarning(row, "Link Resource"), BlankWarning(row, "Metadata Date"),
      BlankWarning(row, "Repository"), public, date]
  {
  }

  function BlankWarnings(row: Row, fields: seq<string>): seq<(bool, Message)> {
    seq(|fields|, i requires 0 <= i < |fields| => BlankWarning(row, fields[i]))
  }

  lemma {:induction false} DueAppend(xs: seq<(bool, Message)>, ys: seq<(bool, Message)>)
    ensures Due(xs + ys) == Due(xs) + Due(ys)
  {
    if xs == [] {
      assert xs + ys == ys;
    } else {
      DueAppend(xs[1..], ys);
      assert (xs + ys)[1..] == xs[1..] + ys;
    }
  }

  lemma {:induction false} DueOfTwo(x: (bool, Message), y: (bool, Message))
    ensures Due([x, y]) == (if x.0 then [x.1] else []) + (if y.0 then [y.1] else [])
  {
    var none: seq<(bool, Message)> := [];
    assert [x, y][1..] == [y] && [y][1..] == none;
    assert Due([y]) == if y.0 then [y.1] else [];
  }

  lemma {:induction false} MissingIsDue(row: Row, fields: seq<string>)
    ensures MissingMessages(row, fields) == Due(BlankWarnings(row, fields))
  {
    if fields != [] {
      var n := |fields| - 1;
      MissingIsDue(row, fields[..n]);
      var last := BlankWarning(row, fields[n]);
      BlankMeaning(Get(row, fields[n]));
      assert BlankWarnings(row, fields) == BlankWarnings(row, fields[..n]) + [last];
      DueAppend(BlankWarnings(row, fields[..n]), [last]);
      var none: seq<(bool, Message)> := [];
      assert [last][1..] == none;
      assert Due([last]) == if last.0 then [last.1] else [];
    }
  }

  class MetRowContract {
    constructor () {}

    /** The messages on recommended values, field by field. */
    method MissingValues(row: Row) returns (messages: seq<Message>)
      ensures messages == MissingMessages(row, RECOMMENDED_VALUE_FIELDS)
    {
      var fields := RECOMMENDED_VALUE_FIELDS;
      messages := [];
      for i := 0 to |fields|
        invariant messages == MissingMessages(row, fields[..i])
      {
        assert fields[..i + 1][..i] == fields[..i];
        if IsBlank(Get(row, fields[i])) {
          messages := messages + [MissingValue(fields[i])];
        }
      }
      assert fields[..|fields|] == fields;
    }

    method PublicDomainMessages(row: Row) returns (messages: seq<Message>)
      ensures messages == if PublicDomainOk(row) then [] else [INVALID_PUBLIC_DOMAIN]
    {
      messages := [];
      var publicDomain := Get(row, "Is Public Domain");
      if !publicDomain.Text? || Lower(Strip(publicDomain.text, IsSpace)) !in PUBLIC_DOMAIN_VALUES {
        messages := [INVALID_PUBLIC_DOMAIN];
      }
    }

    method MetadataDateMessages(row: Row, isIso: string -> bool) returns (messages: seq<Message>)
      ensures messages == if MetadataDateOk(row, isIso) then [] else [INVALID_METADATA_DATE]
    {
      messages := [];
      var metadataDate := Get(row, "Metadata Date");
      if metadataDate.Text? && Strip(metadataDate.text, IsSpace) != "" {
        if !isIso(ReplaceZ(Strip(metadataDate.text, IsSpace))) {
          messages := [INVALID_METADATA_DATE];
        }
      }
    }

    method Validate(row: Row, isIso: string -> bool) returns (result: ContractResult)
      ensures result == Verdict(row, isIso)
    {
      if ParsePositiveObjectId(Get(row, "Object ID")).None? {
        return ContractResult(Quarantined, [INVALID_OBJECT_ID]);
      }
      var messages := MissingValues(row);
      var publicDomain := PublicDomainMessages(row);
      var metadataDate := MetadataDateMessages(row, isIso);
      messages := messages + publicDomain + metadataDate;
      return ContractResult(if messages != [] then AcceptedWithWarnings else Accepted, messages);
    }
  }
}
