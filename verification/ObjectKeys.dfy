/** Bronze object keys, and the reading of a key from its right end. */
module ObjectKeys {
  import opened Basics
  import opened Bronze
  import opened BronzeJson
  import opened Decimals

  datatype Keys = Keys(artifact: string, evidence: string, completion: string)

  predicate IsSlash(c: char) { c == '/' }

  /** str.split("/"). */
  function Segments(s: string): (parts: seq<string>)
    ensures parts != []
  {
    if s == "" then [""]
    else
      var rest := Segments(s[1..]);
      if s[0] == '/' then [""] + rest else [[s[0]] + rest[0]] + rest[1..]
  }

  predicate SafePrefix(normalized: string) {
    && normalized != ""
    && (forall i :: 0 <= i < |Segments(normalized)| ==> Segments(normalized)[i] !in {"", ".", ".."})
    && '\\' !in normalized
  }

  function NormalizePrefix(prefix: string): string { Strip(prefix, IsSlash) }

  function BundlePrefix(a: Artifact, normalized: string): string {
    var d := a.retrievedAt.utcDate;
    normalized + "/" + SourceText(a.source)
      + "/" + ("year=" + PrintNat(d.year)) + "/" + ("month=" + Pad2(d.month)) + "/" + ("day=" + Pad2(d.day))
      + "/" + ("run=" + a.runId)
  }

  /** None stands for the ValueError on an unsafe prefix. */
  function BuildKeys(a: Artifact, prefix: string): Option<Keys> {
    var normalized := NormalizePrefix(prefix);
    if !SafePrefix(normalized) then None
    else
      var bundle := BundlePrefix(a, normalized);
      Some(Keys(
        bundle + "/" + ("source." + a.extension),
        bundle + "/" + "records.manifest.jsonl",
        bundle + "/" + "_SUCCESS.json"))
  }

  // ---- which prefixes are safe ----

  function Join(parts: seq<string>): string
    requires parts != []
  {
    if |parts| == 1 then parts[0] else parts[0] + "/" + Join(parts[1..])
  }

  predicate NoSlash(parts: seq<string>) { forall i :: 0 <= i < |parts| ==> '/' !in parts[i] }

  lemma {:induction false} JoinSegments(s: string)
    ensures NoSlash(Segments(s)) && Join(Segments(s)) == s
  {
    if s != "" {
      var rest := Segments(s[1..]);
      JoinSegments(s[1..]);
      if s[0] == '/' {
        assert ([""] + rest)[1..] == rest;
      } else {
        var parts := [[s[0]] + rest[0]] + rest[1..];
        assert parts[1..] == rest[1..];
        assert s == [s[0]] + s[1..];
      }
    }
  }

  lemma {:induction false} SegmentsOfPart(part: string, s: string)
    requires '/' !in part && (s == "" || s[0] == '/')
    ensures Segments(part + s) == [part] + (if s == "" then [] else Segments(s[1..]))
  {
    if part == "" {
      assert part + s == s;
    } else {
      var tail := part[1..];
      SegmentsOfPart(tail, s);
      assert (part + s)[0] == part[0] && (part + s)[1..] == tail + s;
      assert Segments(tail + s)[0] == tail && [part[0]] + tail == part;
    }
  }

  lemma {:induction false} SegmentsJoin(parts: seq<string>)
    requires parts != [] && NoSlash(parts)
    ensures Segments(Join(parts)) == parts
  {
    if |parts| == 1 {
      SegmentsOfPart(parts[0], "");
      assert parts[0] + "" == parts[0];
    } else {
      var s := "/" + Join(parts[1..]);
      SegmentsOfPart(parts[0], s);
      SegmentsJoin(parts[1..]);
      assert s[1..] == Join(parts[1..]);
      assert parts[0] + "/" + Join(parts[1..]) == parts[0] + s;
    }
  }

  /** Proper names, joined by slashes. */
  ghost predicate IsPath(s: string, parts: seq<string>) {
    && parts != [] && Join(parts) == s
    && forall i :: 0 <= i < |parts| ==> '/' !in parts[i] && '\\' !in parts[i] && parts[i] !in {"", ".", ".."}
  }

  lemma {:induction false} CharsOfJoin(parts: seq<string>, c: char)
    requires parts != [] && c != '/'
    ensures c in Join(parts) <==> exists i :: 0 <= i < |parts| && c in parts[i]
  {
    if |parts| > 1 {
      CharsOfJoin(parts[1..], c);
      assert forall i :: 1 <= i < |parts| ==> parts[i] == parts[1..][i - 1];
    }
  }

  /** There are keys exactly for prefixes that are, slashes at the ends aside, a path of proper names. */
  lemma KeysForSafePrefixes(a: Artifact, prefix: string)
    ensures BuildKeys(a, prefix).Some? <==> exists parts :: IsPath(NormalizePrefix(prefix), parts)
  {
    var s := NormalizePrefix(prefix);
    JoinSegments(s);
    CharsOfJoin(Segments(s), '\\');
    if SafePrefix(s) {
      assert IsPath(s, Segments(s));
    }
    if parts :| IsPath(s, parts) {
      SegmentsJoin(parts);
    }
  }

  // ---- reading keys from the right ----

  function Basename(s: string): (b: string)
    ensures '/' !in b
  {
    if s == "" || s[|s| - 1] == '/' then "" else Basename(s[..|s| - 1]) + [s[|s| - 1]]
  }

  function Dirname(s: string): string {
    if s == "" then "" else if s[|s| - 1] == '/' then s[..|s| - 1] else Dirname(s[..|s| - 1])
  }

  function Tagged(tag: string, segment: string): Option<string> {
    if tag <= segment then Some(segment[|tag|..]) else None
  }

  function TaggedNumber(tag: string, segment: string): Option<nat> {
    match Tagged(tag, segment)
    case Some(t) => if t != "" && AllDigits(t) then Some(Value(t)) else None
    case None => None
  }

  function ReadSource(text: string): Option<Source> {
    if text == SourceText(Met) then Some(Met) else if text == SourceText(Aic) then Some(Aic) else None
  }

  datatype Bundle = Bundle(prefix: string, source: Source, year: nat, month: nat, day: nat, run: string)

  function BundleOf(a: Artifact, prefix: string): Bundle {
    var d := a.retrievedAt.utcDate;
    Bundle(NormalizePrefix(prefix), a.source, d.year, d.month, d.day, a.runId)
  }

  /** Reads run, day, month, year and source from the right; what is left is the prefix. */
  function ReadBundle(s: string): Option<Bundle> {
    var s1 := Dirname(s);
    var s2 := Dirname(s1);
    var s3 := Dirname(s2);
    var s4 := Dirname(s3);
    match (Tagged("run=", Basename(s)), TaggedNumber("day=", Basename(s1)), TaggedNumber("month=", Basename(s2)),
           TaggedNumber("year=", Basename(s3)), ReadSource(Basename(s4)))
    case (Some(run), Some(day), Some(month), Some(year), Some(source)) =>
      Some(Bundle(Dirname(s4), source, year, month, day, run))
    case _ => None
  }

  function ReadArtifactKey(key: string): Option<(Bundle, string)> {
    match (ReadBundle(Dirname(key)), Tagged("source.", Basename(key)))
    case (Some(b), Some(extension)) => Some((b, extension))
    case _ => None
  }

  lemma {:induction false} LastSegment(dir: string, base: string)
    requires '/' !in base
    ensures Dirname(dir + "/" + base) == dir && Basename(dir + "/" + base) == base
  {
    var s := dir + "/" + base;
    if base == "" {
      assert s[..|s| - 1] == dir;
    } else {
      var shorter := base[..|base| - 1];
      assert s[..|s| - 1] == dir + "/" + shorter;
      LastSegment(dir, shorter);
      assert shorter + [base[|base| - 1]] == base;
    }
  }

  lemma {:induction false} ExtensionHasNoSlash(s: string, inWord: bool)
    requires MatchesSafeExtension(s, inWord)
    ensures '/' !in s
  {
    if s != "" {
      ExtensionHasNoSlash(s[1..], IsAlnum(s[0]));
    }
  }

  lemma FiveSegments(s: string, s4: string, s3: string, s2: string, s1: string, s0: string)
    requires '/' !in s4 && '/' !in s3 && '/' !in s2 && '/' !in s1 && '/' !in s0
    ensures var t4 := s + "/" + s4;
      var t3 := t4 + "/" + s3;
      var t2 := t3 + "/" + s2;
      var t1 := t2 + "/" + s1;
      var t0 := t1 + "/" + s0;
      && Dirname(t0) == t1 && Dirname(t1) == t2 && Dirname(t2) == t3 && Dirname(t3) == t4 && Dirname(t4) == s
      && Basename(t0) == s0 && Basename(t1) == s1 && Basename(t2) == s2 && Basename(t3) == s3 && Basename(t4) == s4
  {
    var t4 := s + "/" + s4;
    var t3 := t4 + "/" + s3;
    var t2 := t3 + "/" + s2;
    LastSegment(s, s4);
    LastSegment(t4, s3);
    LastSegment(t3, s2);
    LastSegment(t2, s1);
    LastSegment(t2 + "/" + s1, s0);
  }

  lemma {:induction false} TaggedDecimals(tag: string, digits: string)
    requires digits != "" && AllDigits(digits) && '/' !in tag
    ensures TaggedNumber(tag, tag + digits) == Some(Value(digits)) && '/' !in tag + digits
  {
    TaggedText(tag, digits);
  }

  lemma ReadBundlePrefix(a: Artifact, prefix: string)
    ensures ReadBundle(BundlePrefix(a, NormalizePrefix(prefix))) == Some(BundleOf(a, prefix))
  {
    var d := a.retrievedAt.utcDate;
    FiveSegments(NormalizePrefix(prefix), SourceText(a.source), "year=" + PrintNat(d.year), "month=" + Pad2(d.month),
      "day=" + Pad2(d.day), "run=" + a.runId);
    ValuePrintNat(d.year);
    ReadSourceText(a.source);
    TaggedText("run=", a.runId);
    TaggedDecimals("day=", Pad2(d.day));
    TaggedDecimals("month=", Pad2(d.month));
    TaggedDecimals("year=", PrintNat(d.year));
  }

  lemma ReadSourceText(s: Source)
    ensures ReadSource(SourceText(s)) == Some(s)
  {
    if s == Aic { assert SourceText(Aic)[0] == 'a'; }
  }

  lemma TaggedText(tag: string, text: string)
    ensures Tagged(tag, tag + text) == Some(text)
  {
  }

  /** An artifact key determines normalized prefix, source, UTC date, run and extension. */
  lemma ArtifactKeyDecodes(a: Artifact, prefix: string)
    requires BuildKeys(a, prefix).Some?
    ensures ReadArtifactKey(BuildKeys(a, prefix).value.artifact) == Some((BundleOf(a, prefix), a.extension))
  {
    ExtensionHasNoSlash(a.extension, false);
    LastSegment(BundlePrefix(a, NormalizePrefix(prefix)), "source." + a.extension);
    ReadBundlePrefix(a, prefix);
    TaggedText("source.", a.extension);
  }

  lemma BundleSegments(a: Artifact, prefix: string)
    requires BuildKeys(a, prefix).Some?
    ensures var k := BuildKeys(a, prefix).value;
      && ReadBundle(Dirname(k.artifact)) == Some(BundleOf(a, prefix))
      && ReadBundle(Dirname(k.evidence)) == Some(BundleOf(a, prefix))
      && ReadBundle(Dirname(k.completion)) == Some(BundleOf(a, prefix))
      && Basename(k.artifact) == "source." + a.extension
      && Basename(k.evidence) == "records.manifest.jsonl"
      && Basename(k.completion) == "_SUCCESS.json"
  {
    var bundle := BundlePrefix(a, NormalizePrefix(prefix));
    ExtensionHasNoSlash(a.extension, false);
    LastSegment(bundle, "source." + a.extension);
    LastSegment(bundle, "records.manifest.jsonl");
    LastSegment(bundle, "_SUCCESS.json");
    ReadBundlePrefix(a, prefix);
  }

  /** The keys of one bundle are distinct, and no key of one run is a key of another. */
  lemma KeysNeverCoincide(a: Artifact, p: string, b: Artifact, q: string)
    requires BuildKeys(a, p).Some? && BuildKeys(b, q).Some?
    ensures var k, l := BuildKeys(a, p).value, BuildKeys(b, q).value;
      && k.artifact != l.evidence && k.artifact != l.completion && k.evidence != l.completion
      && (k.artifact == l.artifact <==> BundleOf(a, p) == BundleOf(b, q) && a.extension == b.extension)
      && (k.evidence == l.evidence <==> BundleOf(a, p) == BundleOf(b, q))
      && (k.completion == l.completion <==> BundleOf(a, p) == BundleOf(b, q))
  {
    BundleSegments(a, p);
    BundleSegments(b, q);
    ArtifactKeyDecodes(a, p);
    ArtifactKeyDecodes(b, q);
    var k := BuildKeys(a, p).value;
    assert Basename(k.artifact)[0] == 's' && Basename(k.evidence)[0] == 'r';
    assert Basename(BuildKeys(b, q).value.completion)[0] == '_' && Basename(BuildKeys(b, q).value.evidence)[0] == 'r';
  }

  /** Of a bundle's keys only the completion key ends in _SUCCESS.json, and all three lie in one directory. */
  lemma OneMarkerKey(a: Artifact, prefix: string)
    requires BuildKeys(a, prefix).Some?
    ensures var k := BuildKeys(a, prefix).value;
      && Basename(k.completion) == "_SUCCESS.json"
      && Basename(k.artifact) != "_SUCCESS.json" && Basename(k.evidence) != "_SUCCESS.json"
      && Dirname(k.artifact) == Dirname(k.evidence) == Dirname(k.completion)
  {
    var bundle := BundlePrefix(a, NormalizePrefix(prefix));
    ExtensionHasNoSlash(a.extension, false);
    LastSegment(bundle, "source." + a.extension);
    LastSegment(bundle, "records.manifest.jsonl");
    LastSegment(bundle, "_SUCCESS.json");
    assert "_SUCCESS.json"[0] == '_' && ("source." + a.extension)[0] == 's' && "records.manifest.jsonl"[0] == 'r';
  }

  /** The layout of the three keys: prefix, source, date, run, and the name of the object. */
  predicate IsLayout(k: Keys, a: Artifact, path: string, year: string, month: string, day: string) {
    var source := match a.source case Met => "met" case Aic => "aic";
    var bundle :=
      path + "/" + source + "/year=" + year + "/month=" + month + "/day=" + day + "/run=" + a.runId;
    && k.artifact == bundle + "/source." + a.extension
    && k.evidence == bundle + "/records.manifest.jsonl"
    && k.completion == bundle + "/_SUCCESS.json"
  }

  /** These texts are the date, with month and day in two digits. */
  predicate IsDate(d: Date, year: string, month: string, day: string) {
    && AllDigits(year) && Value(year) == d.year
    && AllDigits(month) && |month| == 2 && Value(month) == d.month
    && AllDigits(day) && |day| == 2 && Value(day) == d.day
  }

  /** The prefix, with slashes around that are to go. */
  ghost predicate IsCore(path: string, prefix: string) {
    path != "" && path[0] != '/' && path[|path| - 1] != '/' && Surrounds(prefix, path, IsSlash)
  }

  lemma {:induction false} KeyLayout(a: Artifact, prefix: string)
    requires BuildKeys(a, prefix).Some?
    ensures exists path, year, month, day ::
      IsCore(path, prefix) && IsDate(a.retrievedAt.utcDate, year, month, day)
      && IsLayout(BuildKeys(a, prefix).value, a, path, year, month, day)
  {
    var d := a.retrievedAt.utcDate;
    var path, year, month, day := NormalizePrefix(prefix), PrintNat(d.year), Pad2(d.month), Pad2(d.day);
    NormalizedIsCore(prefix);
    ValuePrintNat(d.year);
    LaidOut(a, prefix);
    assert IsLayout(BuildKeys(a, prefix).value, a, path, year, month, day);
  }

  lemma {:induction false} NormalizedIsCore(prefix: string)
    requires NormalizePrefix(prefix) != ""
    ensures IsCore(NormalizePrefix(prefix), prefix)
  {
    var i, j := StripCut(prefix, IsSlash);
    StripIsMiddle(prefix, NormalizePrefix(prefix), IsSlash);
  }

  lemma {:induction false} LaidOut(a: Artifact, prefix: string)
    requires BuildKeys(a, prefix).Some?
    ensures var d := a.retrievedAt.utcDate;
      IsLayout(BuildKeys(a, prefix).value, a, NormalizePrefix(prefix), PrintNat(d.year), Pad2(d.month), Pad2(d.day))
  {
    var d := a.retrievedAt.utcDate;
    var path := NormalizePrefix(prefix);
    var source := match a.source case Met => "met" case Aic => "aic";
    LayoutOf(path, source, PrintNat(d.year), Pad2(d.month), Pad2(d.day), a.runId);
    var bundle := BundlePrefix(a, path);
    SlashName(bundle, "source.", a.extension);
    assert "/" + "records.manifest.jsonl" == "/records.manifest.jsonl" && "/" + "_SUCCESS.json" == "/_SUCCESS.json";
    ConcatAssociative(bundle, "/", "records.manifest.jsonl");
    ConcatAssociative(bundle, "/", "_SUCCESS.json");
  }

  lemma SlashName(bundle: string, name: string, extension: string)
    ensures bundle + "/" + (name + extension) == bundle + ("/" + name) + extension
  {
  }

  lemma Tag(head: string, tag: string, text: string)
    ensures head + "/" + (tag + text) == head + ("/" + tag) + text
  {
  }

  lemma LayoutOf(path: string, source: string, year: string, month: string, day: string, run: string)
    ensures path + "/" + source + "/" + ("year=" + year) + "/" + ("month=" + month) + "/" + ("day=" + day) + "/"
              + ("run=" + run)
         == path + "/" + source + "/year=" + year + "/month=" + month + "/day=" + day + "/run=" + run
  {
    var s := path + "/" + source;
    assert "/" + "year=" == "/year=" && "/" + "month=" == "/month=";
    assert "/" + "day=" == "/day=" && "/" + "run=" == "/run=";
    Tag(s, "year=", year);
    var t := s + "/year=" + year;
    Tag(t, "month=", month);
    var u := t + "/month=" + month;
    Tag(u, "day=", day);
    Tag(u + "/day=" + day, "run=", run);
  }
}
