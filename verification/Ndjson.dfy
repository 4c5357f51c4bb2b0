/** The evidence manifest: one canonical JSON line per record, each ended by a newline byte. */
module Ndjson {
  import opened Basics
  import opened Bronze
  import opened BronzeJson
  import Json
  import JsonTheorems

  const NEWLINE: Byte := 0x0A

  /** The lines are the canonical JSON of the records. */
  ghost predicate CanonicalLines(line: Evidence -> Bytes) {
    forall e :: line(e) == EvidenceLine(e)
  }

  function Lines(line: Evidence -> Bytes, items: seq<Evidence>): seq<Bytes> {
    seq(|items|, i requires 0 <= i < |items| => line(items[i]) + [NEWLINE])
  }

  function Payload(line: Evidence -> Bytes, items: seq<Evidence>): Bytes { Flatten(Lines(line, items)) }

  lemma PayloadSnoc(line: Evidence -> Bytes, items: seq<Evidence>, i: nat)
    requires i < |items|
    ensures Payload(line, items[..i + 1]) == Payload(line, items[..i]) + (line(items[i]) + [NEWLINE])
  {
    FlattenSnoc(Lines(line, items), i);
    assert Lines(line, items)[..i] == Lines(line, items[..i]);
    assert Lines(line, items)[..i + 1] == Lines(line, items[..i + 1]);
  }

  lemma PayloadPrefixBound(line: Evidence -> Bytes, items: seq<Evidence>, i: nat)
    requires i <= |items|
    ensures |Payload(line, items[..i])| <= |Payload(line, items)|
  {
    FlattenPrefixBound(Lines(line, items), i);
    assert Lines(line, items)[..i] == Lines(line, items[..i]);
  }

  // ---- reading it back ----

  function LineEnd(b: Bytes): (k: nat)
    ensures k <= |b| && 0x0A !in b[..k]
    ensures k < |b| ==> b[k] == 0x0A
  {
    if b == [] || b[0] == 0x0A then 0
    else
      var k := LineEnd(b[1..]);
      assert b[..k + 1] == [b[0]] + b[1..][..k];
      k + 1
  }

  function SplitLines(b: Bytes): seq<Bytes>
    decreases |b|
  {
    if b == [] then []
    else
      var k := LineEnd(b);
      [b[..k]] + (if k < |b| then SplitLines(b[k + 1..]) else [])
  }

  lemma {:induction false} LineEndOf(line: Bytes, rest: Bytes)
    requires NEWLINE !in line
    ensures LineEnd(line + [NEWLINE] + rest) == |line|
  {
    var b := line + [NEWLINE] + rest;
    assert b[|line|] == NEWLINE;
    assert forall i :: 0 <= i < |line| ==> b[i] == line[i];
  }

  lemma PayloadCons(line: Evidence -> Bytes, items: seq<Evidence>)
    requires items != []
    ensures Payload(line, items) == line(items[0]) + [NEWLINE] + Payload(line, items[1..])
  {
    assert Lines(line, items)[1..] == Lines(line, items[1..]);
  }

  lemma {:induction false} SplitTerminated(line: Evidence -> Bytes, items: seq<Evidence>)
    requires forall i :: 0 <= i < |items| ==> NEWLINE !in line(items[i])
    ensures |SplitLines(Payload(line, items))| == |items|
    ensures forall i :: 0 <= i < |items| ==> SplitLines(Payload(line, items))[i] == line(items[i])
  {
    if items != [] {
      var first, rest := line(items[0]), Payload(line, items[1..]);
      LineEndOf(first, rest);
      var b := first + [NEWLINE] + rest;
      PayloadCons(line, items);
      assert b[..|first|] == first && b[|first| + 1..] == rest;
      SplitTerminated(line, items[1..]);
    }
  }

  lemma SplitPayload(line: Evidence -> Bytes, items: seq<Evidence>)
    requires CanonicalLines(line)
    ensures |SplitLines(Payload(line, items))| == |items|
    ensures forall i :: 0 <= i < |items| ==> SplitLines(Payload(line, items))[i] == line(items[i])
  {
    forall i | 0 <= i < |items| ensures NEWLINE !in line(items[i]) {
      JsonTheorems.CanonicalHasNoNewline(EvidenceJson(items[i]));
    }
    SplitTerminated(line, items);
  }

  /** Splitting the stored bytes on 0x0A and parsing each line gives back the records, one line each, in order. */
  lemma PayloadRoundTrip(line: Evidence -> Bytes, items: seq<Evidence>)
    requires CanonicalLines(line)
    ensures var lines := SplitLines(Payload(line, items));
      && |lines| == |items|
      && forall i :: 0 <= i < |items| ==> Json.ParseDocument(lines[i]) == Some(Json.Normalize(EvidenceJson(items[i])))
  {
    SplitPayload(line, items);
    forall i | 0 <= i < |items|
      ensures Json.ParseDocument(SplitLines(Payload(line, items))[i]) == Some(Json.Normalize(EvidenceJson(items[i])))
    {
      JsonTheorems.CanonicalRoundTrip(EvidenceJson(items[i]));
    }
  }

  /** The bytes determine the sequence of records. */
  lemma PayloadInjective(line: Evidence -> Bytes, xs: seq<Evidence>, ys: seq<Evidence>)
    requires CanonicalLines(line) && Payload(line, xs) == Payload(line, ys)
    ensures xs == ys
  {
    SplitPayload(line, xs);
    SplitPayload(line, ys);
    forall i | 0 <= i < |xs| ensures xs[i] == ys[i] {
      EvidenceLineInjective(xs[i], ys[i]);
    }
  }

  /** Every line is ended by 0x0A, the last one too. */
  lemma PayloadEndsLine(line: Evidence -> Bytes, items: seq<Evidence>)
    requires items != []
    ensures var b := Payload(line, items); b != [] && b[|b| - 1] == 0x0A
  {
    PayloadSnoc(line, items, |items| - 1);
    assert items[..|items|] == items;
  }
}
