/** What canonical JSON is for: it can be read back, it fits on one line, and key order does not matter. */
module JsonTheorems {
  import opened Basics
  import opened Decimals
  import opened Json
  import Utf8

  // ---- the parser undoes the printer ----

  lemma HexRoundTrip(d: nat)
    requires d < 16
    ensures HexOf(HexChar(d)) == Some(d)
  {
  }

  lemma {:induction false} ParseCharsEscaped(c: char, more: string)
    ensures ParseChars(EscapeChar(c) + more)
         == match ParseChars(more)
            case NoParse => NoParse
            case Parsed(t, rest) => Parsed([c] + t, rest)
  {
    var e := EscapeChar(c);
    var s := e + more;
    if |e| == 1 {
      assert s[1..] == more;
    } else {
      assert s[1..] == e[1..] + more;
      ParseEscapeOf(c, more);
    }
  }

  lemma ParseEscapeOf(c: char, more: string)
    requires |EscapeChar(c)| > 1
    ensures EscapeChar(c)[0] == '\\' && ParseEscape(EscapeChar(c)[1..] + more) == Parsed(c, more)
  {
    var s := EscapeChar(c)[1..] + more;
    if |EscapeChar(c)| > 2 {
      var n := c as int;
      HexRoundTrip(n / 16);
      HexRoundTrip(n % 16);
      assert s == "u00" + [HexChar(n / 16), HexChar(n % 16)] + more;
      assert s[5..] == more;
    } else {
      assert s[1..] == more;
    }
  }

  lemma {:induction false} ParseCharsEscape(t: string, rest: string)
    ensures ParseChars(Escape(t) + "\"" + rest) == Parsed(t, rest)
  {
    if t == "" {
      assert Escape(t) + "\"" + rest == "\"" + rest;
      assert ("\"" + rest)[1..] == rest;
    } else {
      var more := Escape(t[1..]) + "\"" + rest;
      assert Escape(t) + "\"" + rest == EscapeChar(t[0]) + more;
      ParseCharsEscape(t[1..], rest);
      ParseCharsEscaped(t[0], more);
      assert [t[0]] + t[1..] == t;
    }
  }

  /** The text after a value may not begin with a digit: it would extend a printed number. */
  predicate EndsValue(rest: string) { rest == "" || !IsDigit(rest[0]) }

  lemma {:induction false} DigitSpanOf(digits: string, rest: string)
    requires AllDigits(digits) && EndsValue(rest)
    ensures DigitSpan(digits + rest) == |digits|
  {
    if digits == "" {
      assert digits + rest == rest;
    } else {
      DigitSpanOf(digits[1..], rest);
      assert (digits + rest)[1..] == digits[1..] + rest;
    }
  }

  lemma CutAfter(head: string, rest: string)
    ensures (head + rest)[..|head|] == head && (head + rest)[|head|..] == rest
  {
  }

  lemma {:induction false} ParseDigits(digits: string, rest: string)
    requires digits != "" && AllDigits(digits) && EndsValue(rest)
    ensures ParseNumber(digits + rest) == Parsed(JInt(Value(digits)), rest)
    ensures IsDigit((digits + rest)[0])
  {
    DigitSpanOf(digits, rest);
    CutAfter(digits, rest);
    assert (digits + rest)[0] == digits[0];
  }

  lemma {:induction false} ParseNegative(digits: string, rest: string)
    requires digits != "" && AllDigits(digits) && EndsValue(rest)
    ensures ParseNumber("-" + (digits + rest)) == Parsed(JInt(-(Value(digits) as int)), rest)
  {
    DigitSpanOf(digits, rest);
    CutAfter(digits, rest);
    CutAfter("-", digits + rest);
  }

  lemma {:induction false} ParsePrintedInt(n: int, rest: string)
    requires EndsValue(rest)
    ensures ParseValue(PrintInt(n) + rest) == Parsed(JInt(n), rest)
  {
    var digits := PrintNat(if n < 0 then -n else n);
    ValuePrintNat(if n < 0 then -n else n);
    if n < 0 {
      ParseNegative(digits, rest);
      ConcatAssociative("-", digits, rest);
    } else {
      ParseDigits(digits, rest);
    }
  }

  // One reading step each, apart from the string algebra of the round trip.

  lemma {:induction false} ReadString(s: string, t: string, rest: string)
    requires s != "" && s[0] == '\"' && ParseChars(s[1..]) == Parsed(t, rest)
    ensures ParseValue(s) == Parsed(JString(t), rest)
  {
  }

  lemma {:induction false} ReadArray(s: string, items: seq<Json>, rest: string)
    requires |s| > 1 && s[0] == '[' && s[1] != ']' && ParseItems(s[1..]) == Parsed(items, rest)
    ensures ParseValue(s) == Parsed(JArray(items), rest)
  {
  }

  lemma {:induction false} ReadObject(s: string, fields: seq<Field>, rest: string)
    requires |s| > 1 && s[0] == '{' && s[1] != '}' && ParseFields(s[1..]) == Parsed(fields, rest)
    ensures ParseValue(s) == Parsed(JObject(fields), rest)
  {
  }

  lemma {:induction false} ReadItem(s: string, v: Json, more: string)
    requires ParseValue(s) == Parsed(v, more) && more != ""
    ensures more[0] == ']' ==> ParseItems(s) == Parsed([v], more[1..])
    ensures more[0] == ',' ==>
      forall vs, rest :: ParseItems(more[1..]) == Parsed(vs, rest) ==> ParseItems(s) == Parsed([v] + vs, rest)
  {
  }

  lemma {:induction false} ReadMember(s: string, f: Field, more: string)
    requires ParseField(s) == Parsed(f, more) && more != ""
    ensures more[0] == '}' ==> ParseFields(s) == Parsed([f], more[1..])
    ensures more[0] == ',' ==>
      forall fs, rest :: ParseFields(more[1..]) == Parsed(fs, rest) ==> ParseFields(s) == Parsed([f] + fs, rest)
  {
  }

  lemma {:induction false} ReadField(s: string, k: string, more: string, v: Json, rest: string)
    requires s != "" && s[0] == '\"' && ParseChars(s[1..]) == Parsed(k, more)
    requires more != "" && more[0] == ':' && ParseValue(more[1..]) == Parsed(v, rest)
    ensures ParseField(s) == Parsed(Field(k, v), rest)
  {
  }

  lemma {:induction false} ReadEmpty(rest: string)
    ensures ParseValue("null" + rest) == Parsed(JNull, rest)
    ensures ParseValue("[]" + rest) == Parsed(JArray([]), rest)
    ensures ParseValue("{}" + rest) == Parsed(JObject([]), rest)
  {
    assert ("null" + rest)[4..] == rest;
    assert ("[]" + rest)[2..] == rest;
    assert ("{}" + rest)[2..] == rest;
  }

  lemma {:induction false} ParsePrintedString(t: string, rest: string)
    ensures ParseValue(PrintString(t) + rest) == Parsed(JString(t), rest)
  {
    ParseCharsEscape(t, rest);
    var body := Escape(t) + "\"" + rest;
    assert PrintString(t) + rest == "\"" + body;
    ReadString("\"" + body, t, rest);
  }

  lemma {:induction false} ParsePrint(v: Json, rest: string)
    requires EndsValue(rest)
    ensures ParseValue(Print(v) + rest) == Parsed(v, rest)
    decreases v, 0
  {
    match v
    case JNull => ReadEmpty(rest);
    case JString(t) => ParsePrintedString(t, rest);
    case JInt(n) => ParsePrintedInt(n, rest);
    case JArray(items) => ParsePrintArray(items, rest);
    case JObject(fields) => ParsePrintObject(fields, rest);
  }

  lemma {:induction false} ParsePrintArray(items: seq<Json>, rest: string)
    ensures ParseValue("[" + PrintItems(items) + "]" + rest) == Parsed(JArray(items), rest)
    decreases items, 2
  {
    if items == [] {
      ReadEmpty(rest);
      assert "[" + PrintItems(items) + "]" + rest == "[]" + rest;
    } else {
      var body := PrintItems(items) + "]" + rest;
      ItemsFirst(items);
      ParsePrintItems(items, rest);
      assert "[" + PrintItems(items) + "]" + rest == "[" + body;
      assert ("[" + body)[1..] == body;
      ReadArray("[" + body, items, rest);
    }
  }

  lemma {:induction false} ParsePrintObject(fields: seq<Field>, rest: string)
    ensures ParseValue("{" + PrintFields(fields) + "}" + rest) == Parsed(JObject(fields), rest)
    decreases fields, 2
  {
    if fields == [] {
      ReadEmpty(rest);
      assert "{" + PrintFields(fields) + "}" + rest == "{}" + rest;
    } else {
      var body := PrintFields(fields) + "}" + rest;
      assert body[0] == PrintField(fields[0])[0];
      ParsePrintFields(fields, rest);
      assert "{" + PrintFields(fields) + "}" + rest == "{" + body;
      assert ("{" + body)[1..] == body;
      ReadObject("{" + body, fields, rest);
    }
  }

  lemma {:induction false} ItemsFirst(items: seq<Json>)
    requires items != []
    ensures PrintItems(items) != "" && PrintItems(items)[0] != ']'
  {
    assert PrintItems(items)[0] == Print(items[0])[0];
    if items[0].JInt? && items[0].n >= 0 {
      assert IsDigit(PrintNat(items[0].n)[0]);
    }
  }

  lemma Reassociate(a: string, b: string, c: string, d: string, e: string)
    ensures a + b + c + d + e == a + (b + (c + d + e))
  {
  }

  lemma HeadAndTail<T>(xs: seq<T>)
    requires xs != []
    ensures [xs[0]] + xs[1..] == xs
    ensures |xs| == 1 ==> xs == [xs[0]]
  {
  }

  lemma {:induction false} PrintedItems(items: seq<Json>, rest: string)
    requires items != []
    ensures PrintItems(items) + "]" + rest
         == Print(items[0]) + if |items| == 1 then "]" + rest else "," + (PrintItems(items[1..]) + "]" + rest)
  {
    if |items| == 1 {
      ConcatAssociative(Print(items[0]), "]", rest);
    } else {
      Reassociate(Print(items[0]), ",", PrintItems(items[1..]), "]", rest);
    }
  }

  lemma {:induction false} PrintedFields(fields: seq<Field>, rest: string)
    requires fields != []
    ensures PrintFields(fields) + "}" + rest
         == PrintField(fields[0]) + if |fields| == 1 then "}" + rest else "," + (PrintFields(fields[1..]) + "}" + rest)
  {
    if |fields| == 1 {
      ConcatAssociative(PrintField(fields[0]), "}", rest);
    } else {
      Reassociate(PrintField(fields[0]), ",", PrintFields(fields[1..]), "}", rest);
    }
  }

  lemma {:induction false} ParsePrintItems(items: seq<Json>, rest: string)
    requires items != []
    ensures ParseItems(PrintItems(items) + "]" + rest) == Parsed(items, rest)
    decreases items, 1
  {
    var others := if |items| == 1 then "" else PrintItems(items[1..]) + "]" + rest;
    var tail := if |items| == 1 then "]" + rest else "," + others;
    PrintedItems(items, rest);
    ParsePrint(items[0], tail);
    ReadItem(Print(items[0]) + tail, items[0], tail);
    HeadAndTail(items);
    if |items| == 1 {
      CutAfter("]", rest);
    } else {
      ParsePrintItems(items[1..], rest);
      CutAfter(",", others);
    }
  }

  lemma {:induction false} ParsePrintField(f: Field, rest: string)
    requires EndsValue(rest)
    ensures ParseField(PrintField(f) + rest) == Parsed(f, rest)
    decreases f, 0
  {
    var more := ":" + (Print(f.value) + rest);
    var body := Escape(f.key) + "\"" + more;
    assert PrintField(f) + rest == "\"" + body;
    assert ("\"" + body)[1..] == body;
    ParseCharsEscape(f.key, more);
    assert more[1..] == Print(f.value) + rest;
    ParsePrint(f.value, rest);
    ReadField("\"" + body, f.key, more, f.value, rest);
  }

  lemma {:induction false} ParsePrintFields(fields: seq<Field>, rest: string)
    requires fields != []
    ensures ParseFields(PrintFields(fields) + "}" + rest) == Parsed(fields, rest)
    decreases fields, 1
  {
    var others := if |fields| == 1 then "" else PrintFields(fields[1..]) + "}" + rest;
    var tail := if |fields| == 1 then "}" + rest else "," + others;
    PrintedFields(fields, rest);
    ParsePrintField(fields[0], tail);
    ReadMember(PrintField(fields[0]) + tail, fields[0], tail);
    HeadAndTail(fields);
    if |fields| == 1 {
      CutAfter("}", rest);
    } else {
      ParsePrintFields(fields[1..], rest);
      CutAfter(",", others);
    }
  }

  /** Reading canonical bytes gives the value back, with every object's members in key order. */
  lemma {:induction false} CanonicalRoundTrip(v: Json)
    ensures ParseDocument(Canonical(v)) == Some(Normalize(v))
  {
    Utf8.DecodeEncode(CanonicalText(v));
    ParsePrint(Normalize(v), "");
    assert CanonicalText(v) + "" == CanonicalText(v);
  }

  lemma {:induction false} CanonicalDeterminesValue(a: Json, b: Json)
    requires Canonical(a) == Canonical(b)
    ensures Normalize(a) == Normalize(b)
  {
    CanonicalRoundTrip(a);
    CanonicalRoundTrip(b);
  }

  // ---- no newline byte ----

  lemma {:induction false} PrintHasNoNewline(v: Json)
    ensures '\n' !in Print(v)
    decreases v, 0
  {
    match v
    case JArray(items) => PrintItemsHasNoNewline(items);
    case JObject(fields) => PrintFieldsHasNoNewline(fields);
    case JInt(n) => assert AllDigits(PrintNat(if n < 0 then -n else n));
    case _ =>
  }

  lemma {:induction false} PrintItemsHasNoNewline(items: seq<Json>)
    ensures '\n' !in PrintItems(items)
    decreases items, 1
  {
    if items != [] {
      PrintHasNoNewline(items[0]);
      PrintItemsHasNoNewline(items[1..]);
    }
  }

  lemma {:induction false} PrintFieldsHasNoNewline(fields: seq<Field>)
    ensures '\n' !in PrintFields(fields)
    decreases fields, 1
  {
    if fields != [] {
      PrintHasNoNewline(fields[0].value);
      PrintFieldsHasNoNewline(fields[1..]);
    }
  }

  lemma CanonicalHasNoNewline(v: Json)
    ensures Canonical(v) != [] && 0x0A !in Canonical(v)
  {
    PrintHasNoNewline(Normalize(v));
    Utf8.EncodeHasNoNewline(CanonicalText(v));
  }

  // ---- key order ----

  lemma {:induction false} TextLeTotal(a: string, b: string)
    ensures TextLe(a, b) || TextLe(b, a)
    ensures TextLe(a, b) && TextLe(b, a) ==> a == b
  {
    if a != [] && b != [] {
      TextLeTotal(a[1..], b[1..]);
      assert a == [a[0]] + a[1..] && b == [b[0]] + b[1..];
    }
  }

  lemma {:induction false} TextLeTransitive(a: string, b: string, c: string)
    requires TextLe(a, b) && TextLe(b, c)
    ensures TextLe(a, c)
  {
    if a != [] && a[0] == b[0] == c[0] {
      TextLeTransitive(a[1..], b[1..], c[1..]);
    }
  }

  ghost predicate SortedFields(fields: seq<Field>) {
    forall i, j :: 0 <= i < j < |fields| ==> TextLe(fields[i].key, fields[j].key)
  }

  ghost predicate DistinctKeys(fields: seq<Field>) {
    forall i, j :: 0 <= i < j < |fields| ==> fields[i].key != fields[j].key
  }

  lemma {:induction false} InsertFieldMembers(f: Field, fields: seq<Field>)
    ensures multiset(InsertField(f, fields)) == multiset(fields) + multiset{f}
  {
    if fields != [] && !TextLe(f.key, fields[0].key) {
      InsertFieldMembers(f, fields[1..]);
      HeadAndTail(fields);
    }
  }

  lemma {:induction false} InsertFieldSorted(f: Field, fields: seq<Field>)
    requires SortedFields(fields)
    ensures SortedFields(InsertField(f, fields))
  {
    if fields != [] {
      TextLeTotal(f.key, fields[0].key);
      if TextLe(f.key, fields[0].key) {
        forall j | 0 <= j < |fields| ensures TextLe(f.key, fields[j].key) {
          if j > 0 { TextLeTransitive(f.key, fields[0].key, fields[j].key); }
        }
      } else {
        InsertFieldSorted(f, fields[1..]);
        var tail := InsertField(f, fields[1..]);
        forall j | 0 <= j < |tail| ensures TextLe(fields[0].key, tail[j].key) {
          InsertedBelongs(f, fields[1..], tail[j]);
        }
      }
    }
  }

  lemma {:induction false} InsertedBelongs(f: Field, fields: seq<Field>, g: Field)
    requires g in InsertField(f, fields)
    ensures g == f || g in fields
  {
    InsertFieldMembers(f, fields);
    assert g in multiset(InsertField(f, fields));
  }

  /** SortFields puts the same members in key order. */
  lemma {:induction false} SortFieldsSorted(fields: seq<Field>)
    ensures SortedFields(SortFields(fields))
    ensures multiset(SortFields(fields)) == multiset(fields)
  {
    if fields != [] {
      SortFieldsSorted(fields[1..]);
      InsertFieldSorted(fields[0], SortFields(fields[1..]));
      InsertFieldMembers(fields[0], SortFields(fields[1..]));
      HeadAndTail(fields);
    }
  }

  ghost predicate SameMembers(a: seq<Field>, b: seq<Field>) {
    forall f :: f in a <==> f in b
  }

  lemma {:induction false} SortFieldsMembers(fields: seq<Field>)
    ensures SameMembers(SortFields(fields), fields)
    ensures DistinctKeys(fields) ==> DistinctKeys(SortFields(fields))
  {
    SortFieldsSorted(fields);
    var s := SortFields(fields);
    forall f ensures f in s <==> f in fields {
      assert f in multiset(s) <==> f in multiset(fields);
    }
    if DistinctKeys(fields) {
      SortedKeepsDistinct(fields, s);
    }
  }

  lemma SortedKeepsDistinct(a: seq<Field>, b: seq<Field>)
    requires DistinctKeys(a) && multiset(a) == multiset(b)
    ensures DistinctKeys(b)
  {
    forall i, j | 0 <= i < j < |b| ensures b[i].key != b[j].key {
      assert b[i] in multiset(a) && b[j] in multiset(a);
      if b[i] == b[j] {
        assert b == b[..i] + [b[i]] + b[i + 1..j] + [b[j]] + b[j + 1..];
        assert multiset(b)[b[i]] >= 2;
        OccursOnce(a, b[i]);
      }
    }
  }

  lemma {:induction false} OccursOnce(a: seq<Field>, f: Field)
    requires DistinctKeys(a)
    ensures multiset(a)[f] <= 1
  {
    if a != [] {
      OccursOnce(a[1..], f);
      assert a == [a[0]] + a[1..];
      if f == a[0] {
        assert f !in a[1..];
        assert f !in multiset(a[1..]);
      }
    }
  }

  lemma {:induction false} SortedOrderUnique(a: seq<Field>, b: seq<Field>)
    requires SortedFields(a) && SortedFields(b) && DistinctKeys(a) && DistinctKeys(b)
    requires |a| == |b| && SameMembers(a, b)
    ensures a == b
  {
    if a != [] {
      assert a[0] in b && b[0] in a;
      TextLeTotal(a[0].key, b[0].key);
      forall f ensures f in a[1..] <==> f in b[1..] {
        assert f in a <==> f in b;
        assert f in a <==> f == a[0] || f in a[1..];
        assert f in b <==> f == b[0] || f in b[1..];
      }
      SortedOrderUnique(a[1..], b[1..]);
      assert a == [a[0]] + a[1..] && b == [b[0]] + b[1..];
    }
  }

  /** Every dict has distinct keys, at every depth. */
  ghost predicate WellFormed(v: Json)
    decreases v
  {
    match v
    case JArray(items) => forall i :: 0 <= i < |items| ==> WellFormed(items[i])
    case JObject(fields) => DistinctKeys(fields) && forall i :: 0 <= i < |fields| ==> WellFormed(fields[i].value)
    case _ => true
  }

  /** Equality of Python values: dicts are compared without regard to the order of insertion. */
  ghost predicate SameValue(a: Json, b: Json)
    decreases a
  {
    match (a, b)
    case (JArray(xs), JArray(ys)) => |xs| == |ys| && forall i :: 0 <= i < |xs| ==> SameValue(xs[i], ys[i])
    case (JObject(xs), JObject(ys)) =>
      && |xs| == |ys|
      && forall i :: 0 <= i < |xs| ==> exists j :: 0 <= j < |ys| && SameField(xs[i], ys[j])
    case _ => a == b
  }

  ghost predicate SameField(f: Field, g: Field)
    decreases f
  {
    f.key == g.key && SameValue(f.value, g.value)
  }

  lemma {:induction false} SameValueNormalizes(a: Json, b: Json)
    requires WellFormed(a) && WellFormed(b)
    ensures SameValue(a, b) <==> Normalize(a) == Normalize(b)
    decreases a, 0
  {
    match (a, b)
    case (JArray(xs), JArray(ys)) =>
      forall i | 0 <= i < |xs| && |xs| == |ys|
        ensures SameValue(xs[i], ys[i]) <==> NormalizeItems(xs)[i] == NormalizeItems(ys)[i]
      {
        SameValueNormalizes(xs[i], ys[i]);
      }
    case (JObject(xs), JObject(ys)) => SameFieldsNormalize(xs, ys);
    case _ =>
  }

  lemma {:induction false} SameFieldsNormalize(xs: seq<Field>, ys: seq<Field>)
    requires WellFormed(JObject(xs)) && WellFormed(JObject(ys))
    ensures SameValue(JObject(xs), JObject(ys)) <==> SortFields(NormalizeFields(xs)) == SortFields(NormalizeFields(ys))
    decreases xs, 1
  {
    var nx, ny := NormalizeFields(xs), NormalizeFields(ys);
    forall i, j | 0 <= i < |xs| && 0 <= j < |ys| ensures SameField(xs[i], ys[j]) <==> nx[i] == ny[j] {
      SameValueNormalizes(xs[i].value, ys[j].value);
    }
    if SameValue(JObject(xs), JObject(ys)) {
      SubsetSortsAlike(nx, ny);
    }
    if SortFields(nx) == SortFields(ny) {
      SortedAlikeIsSubset(nx, ny);
      forall i | 0 <= i < |xs| ensures exists j :: 0 <= j < |ys| && SameField(xs[i], ys[j]) {
        var j :| 0 <= j < |ny| && ny[j] == nx[i];
        assert SameField(xs[i], ys[j]);
      }
    }
  }

  lemma {:induction false} SubsetSortsAlike(a: seq<Field>, b: seq<Field>)
    requires |a| == |b| && DistinctKeys(a) && DistinctKeys(b)
    requires forall i :: 0 <= i < |a| ==> a[i] in b
    ensures SortFields(a) == SortFields(b)
  {
    SubsetIsSameMembers(a, b);
    SortFieldsMembers(a);
    SortFieldsMembers(b);
    SortFieldsSorted(a);
    SortFieldsSorted(b);
    assert |multiset(SortFields(a))| == |multiset(a)| && |multiset(SortFields(b))| == |multiset(b)|;
    SortedOrderUnique(SortFields(a), SortFields(b));
  }

  lemma {:induction false} SortedAlikeIsSubset(a: seq<Field>, b: seq<Field>)
    requires SortFields(a) == SortFields(b)
    ensures |a| == |b| && forall i :: 0 <= i < |a| ==> a[i] in b
  {
    SortFieldsSorted(a);
    SortFieldsSorted(b);
    assert |multiset(a)| == |multiset(b)|;
    forall i | 0 <= i < |a| ensures a[i] in b {
      assert a[i] in multiset(b);
    }
  }

  /** Two lists of equally many distinct keys, one within the other. */
  lemma {:induction false} SubsetIsSameMembers(a: seq<Field>, b: seq<Field>)
    requires |a| == |b| && DistinctKeys(a) && DistinctKeys(b)
    requires forall i :: 0 <= i < |a| ==> a[i] in b
    ensures SameMembers(a, b)
  {
    if a != [] {
      var j :| 0 <= j < |b| && b[j] == a[0];
      var c := b[..j] + b[j + 1..];
      forall i | 0 <= i < |a[1..]| ensures a[1..][i] in c {
        var k :| 0 <= k < |b| && b[k] == a[i + 1];
        assert k != j;
        assert c[if k < j then k else k - 1] == b[k];
      }
      SubsetIsSameMembers(a[1..], c);
      assert forall f :: f in b <==> f == b[j] || f in c;
      assert forall f :: f in a <==> f == a[0] || f in a[1..];
    }
  }

  /** Dicts that differ only in insertion order, at any depth, are written as the same bytes; no others are. */
  lemma {:induction false} CanonicalIgnoresKeyOrder(a: Json, b: Json)
    requires WellFormed(a) && WellFormed(b)
    ensures Canonical(a) == Canonical(b) <==> SameValue(a, b)
  {
    SameValueNormalizes(a, b);
    if Canonical(a) == Canonical(b) {
      CanonicalDeterminesValue(a, b);
    }
  }

  // ---- the text itself ----

  /** One dict in text: keys sorted, no spaces, null and numbers bare, a line feed escaped. */
  lemma {:induction false} Example()
    ensures var v := JObject([
        Field("b", JArray([JInt(1), JNull, JInt(-42)])),
        Field("a", JString(['x', '\n', '\"']))]);
      CanonicalText(v) == "{" + ("\"a\":" + "\"x\\n\\\"\"" + "," + ("\"b\":" + "[1,null,-42]")) + "}"
  {
    var list, text := JArray([JInt(1), JNull, JInt(-42)]), JString(['x', '\n', '\"']);
    ExampleSorted(list, text);
    ExampleList();
    ExampleText();
    ExampleFields(text, list, Print(text), Print(list));
  }

  lemma {:induction false} ExampleFields(text: Json, list: Json, t: string, l: string)
    requires Print(text) == t && Print(list) == l
    ensures Print(JObject([Field("a", text), Field("b", list)]))
         == "{" + ("\"a\":" + t + "," + ("\"b\":" + l)) + "}"
  {
    var a, b := Field("a", text), Field("b", list);
    ExampleKey('a');
    ExampleKey('b');
    assert [a, b][1..] == [b];
    assert PrintField(a) == "\"a\":" + t && PrintField(b) == "\"b\":" + l;
    assert PrintFields([b]) == PrintField(b);
    assert PrintFields([a, b]) == PrintField(a) + "," + PrintField(b);
  }

  lemma {:induction false} ExampleKey(c: char)
    requires 'a' <= c <= 'z'
    ensures PrintString([c]) == ['\"', c, '\"']
  {
    EscapeMeaning(c);
    assert [c][1..] == [];
    assert Escape([c]) == EscapeChar(c) + Escape([]);
  }

  lemma {:induction false} ExampleText()
    ensures Print(JString(['x', '\n', '\"'])) == "\"x\\n\\\"\""
  {
    var s := ['x', '\n', '\"'];
    assert s[1..] == ['\n', '\"'] && s[1..][1..] == ['\"'] && s[1..][1..][1..] == [];
    assert Escape(['\"']) == EscapeChar('\"') + Escape([]);
    assert Escape(['\n', '\"']) == EscapeChar('\n') + Escape(['\"']);
    assert Escape(s) == EscapeChar('x') + Escape(['\n', '\"']);
    assert Escape(s) == "x\\n\\\"";
  }

  lemma {:induction false} ExampleList()
    ensures Print(JArray([JInt(1), JNull, JInt(-42)])) == "[1,null,-42]"
  {
    var xs := [JInt(1), JNull, JInt(-42)];
    assert xs[1..] == [JNull, JInt(-42)] && xs[1..][1..] == [JInt(-42)];
    Decimals.Examples();
    assert PrintNat(1) == "1" && PrintInt(-42) == "-42";
    assert PrintItems([JInt(-42)]) == "-42";
    assert PrintItems([JNull, JInt(-42)]) == "null" + "," + "-42";
    assert PrintItems(xs) == "1" + "," + PrintItems([JNull, JInt(-42)]);
    assert PrintItems(xs) == "1,null,-42";
  }

  lemma {:induction false} ExampleSorted(list: Json, text: Json)
    requires Normalize(list) == list && Normalize(text) == text
    ensures Normalize(JObject([Field("b", list), Field("a", text)])) == JObject([Field("a", text), Field("b", list)])
  {
    var a, b := Field("a", text), Field("b", list);
    assert NormalizeFields([b, a]) == [b, a];
    assert [b, a][1..] == [a] && [a][1..] == [] && InsertField(a, []) == [a];
    assert SortFields([a]) == [a];
    assert !TextLe("b", "a");
    assert InsertField(b, [a]) == [a] + InsertField(b, []);
  }
}
