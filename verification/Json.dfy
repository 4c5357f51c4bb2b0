/**
 * Canonical JSON: json.dumps with sorted keys, compact separators and no ASCII escaping, then UTF-8.
 * The parser beside it reads compact JSON text (section 7 of RFC 8259 for strings).
 */
module Json {
  import opened Basics
  import opened Decimals
  import Utf8

  datatype Json =
    | JNull
    | JString(text: string)
    | JInt(n: int)
    | JArray(items: seq<Json>)
    | JObject(fields: seq<Field>)  // a dict in insertion order

  datatype Field = Field(key: string, value: Json)

  // ---- printing ----

  function HexChar(d: nat): (c: char)
    requires d < 16
    ensures c !in "\n\"\\"
  {
    if d < 10 then DigitChar(d) else ('a' as int + d - 10) as char
  }

  function EscapeChar(c: char): (s: string)
    ensures s != [] && '\n' !in s
  {
    if c == '\"' then "\\\""
    else if c == '\\' then "\\\\"
    else if c == '\n' then "\\n"
    else if c == '\r' then "\\r"
    else if c == '\t' then "\\t"
    else if c == '\U{c}' then "\\f"
    else if c == '\U{8}' then "\\b"
    else if c < ' ' then "\\u00" + [HexChar(c as int / 16), HexChar(c as int % 16)]
    else [c]
  }

  /** Which characters are escaped, and how: quotes, backslashes and control characters, and nothing else. */
  lemma EscapeMeaning(c: char)
    ensures c >= ' ' && c != '\"' && c != '\\' ==> EscapeChar(c) == [c]
    ensures EscapeChar('\"') == ['\\', '\"'] && EscapeChar('\\') == ['\\', '\\']
    ensures EscapeChar('\n') == ['\\', 'n'] && EscapeChar('\r') == ['\\', 'r'] && EscapeChar('\t') == ['\\', 't']
    ensures EscapeChar('\U{c}') == ['\\', 'f'] && EscapeChar('\U{8}') == ['\\', 'b']
    ensures c < ' ' && c !in {'\n', '\r', '\t', '\U{c}', '\U{8}'} ==>
      var e := EscapeChar(c);
      && |e| == 6 && e[..4] == ['\\', 'u', '0', '0']
      && e[4] == (if c as int < 16 then '0' else '1')
      && ('0' <= e[5] <= '9' || 'a' <= e[5] <= 'f')
      && c as int % 16 == (if e[5] <= '9' then e[5] as int - 48 else e[5] as int - 87)
  {
  }

  function Escape(s: string): (r: string)
    ensures '\n' !in r
  {
    if s == [] then [] else EscapeChar(s[0]) + Escape(s[1..])
  }

  function PrintString(s: string): string { "\"" + Escape(s) + "\"" }

  function Print(v: Json): (s: string)
    ensures s != []
    decreases v
  {
    match v
    case JNull => "null"
    case JString(t) => PrintString(t)
    case JInt(n) => PrintInt(n)
    case JArray(items) => "[" + PrintItems(items) + "]"
    case JObject(fields) => "{" + PrintFields(fields) + "}"
  }

  function PrintItems(items: seq<Json>): string
    decreases items
  {
    if items == [] then ""
    else if |items| == 1 then Print(items[0])
    else Print(items[0]) + "," + PrintItems(items[1..])
  }

  function PrintField(f: Field): (s: string)
    ensures s != [] && s[0] == '\"'
    decreases f
  {
    PrintString(f.key) + ":" + Print(f.value)
  }

  function PrintFields(fields: seq<Field>): string
    decreases fields
  {
    if fields == [] then ""
    else if |fields| == 1 then PrintField(fields[0])
    else PrintField(fields[0]) + "," + PrintFields(fields[1..])
  }

  // ---- key order ----

  /** Python's str <=: by code point, a prefix first. */
  predicate TextLe(a: string, b: string) {
    a == [] || (b != [] && (a[0] < b[0] || (a[0] == b[0] && TextLe(a[1..], b[1..]))))
  }

  /** One text comes before another if it is a prefix of it, or smaller at the first place where they differ. */
  lemma {:induction false} TextLeMeaning(a: string, b: string)
    ensures TextLe(a, b) <==> a <= b || exists k :: 0 <= k < |a| && k < |b| && a[..k] == b[..k] && a[k] < b[k]
  {
    if a != [] && b != [] && a[0] == b[0] {
      var x, y := a[1..], b[1..];
      TextLeMeaning(x, y);
      assert a == [a[0]] + x && b == [b[0]] + y;
      if k :| 0 <= k < |x| && k < |y| && x[..k] == y[..k] && x[k] < y[k] {
        assert a[..k + 1] == [a[0]] + x[..k] && b[..k + 1] == [b[0]] + y[..k];
        assert a[k + 1] < b[k + 1];
      }
      if k :| 0 <= k < |a| && k < |b| && a[..k] == b[..k] && a[k] < b[k] {
        assert k > 0;
        assert x[..k - 1] == a[..k][1..] && y[..k - 1] == b[..k][1..];
        assert x[k - 1] < y[k - 1];
      }
    }
  }

  function InsertField(f: Field, fields: seq<Field>): seq<Field> {
    if fields == [] || TextLe(f.key, fields[0].key) then [f] + fields
    else [fields[0]] + InsertField(f, fields[1..])
  }

  function SortFields(fields: seq<Field>): seq<Field> {
    if fields == [] then [] else InsertField(fields[0], SortFields(fields[1..]))
  }

  function Normalize(v: Json): Json
    decreases v
  {
    match v
    case JArray(items) => JArray(NormalizeItems(items))
    case JObject(fields) => JObject(SortFields(NormalizeFields(fields)))
    case _ => v
  }

  function NormalizeItems(items: seq<Json>): (r: seq<Json>)
    ensures |r| == |items|
    ensures forall i :: 0 <= i < |r| ==> r[i] == Normalize(items[i])
    decreases items
  {
    if items == [] then [] else [Normalize(items[0])] + NormalizeItems(items[1..])
  }

  function NormalizeFields(fields: seq<Field>): (r: seq<Field>)
    ensures |r| == |fields|
    ensures forall i :: 0 <= i < |r| ==> r[i] == Field(fields[i].key, Normalize(fields[i].value))
    decreases fields
  {
    if fields == [] then []
    else [Field(fields[0].key, Normalize(fields[0].value))] + NormalizeFields(fields[1..])
  }

  function CanonicalText(v: Json): string { Print(Normalize(v)) }

  /** The bytes the store writes for a value. */
  function Canonical(v: Json): Bytes { Utf8.Encode(CanonicalText(v)) }

  // ---- parsing ----

  datatype Parsed<+T> = NoParse | Parsed(value: T, rest: string)

  function HexOf(c: char): Option<nat> {
    if IsDigit(c) then Some(DigitOf(c))
    else if 'a' <= c <= 'f' then Some(c as int - 'a' as int + 10)
    else if 'A' <= c <= 'F' then Some(c as int - 'A' as int + 10)
    else None
  }

  /** Reads what follows a backslash. Escaped surrogates are not scalar values and are refused. */
  function ParseEscape(s: string): (r: Parsed<char>)
    ensures r.Parsed? ==> |r.rest| < |s|
  {
    if s == [] then NoParse
    else match s[0]
      case '\"' => Parsed('\"', s[1..])
      case '\\' => Parsed('\\', s[1..])
      case '/' => Parsed('/', s[1..])
      case 'n' => Parsed('\n', s[1..])
      case 'r' => Parsed('\r', s[1..])
      case 't' => Parsed('\t', s[1..])
      case 'f' => Parsed('\U{c}', s[1..])
      case 'b' => Parsed('\U{8}', s[1..])
      case 'u' =>
        if |s| < 5 then NoParse
        else (match (HexOf(s[1]), HexOf(s[2]), HexOf(s[3]), HexOf(s[4]))
              case (Some(a), Some(b), Some(c), Some(d)) =>
                var n := ((a * 16 + b) * 16 + c) * 16 + d;
                if n < 0xD800 || 0xE000 <= n < 0x110000 then Parsed(n as char, s[5..]) else NoParse
              case _ => NoParse)
      case _ => NoParse
  }

  /** Reads the characters of a string up to and including its closing quote. */
  function ParseChars(s: string): (r: Parsed<string>)
    ensures r.Parsed? ==> |r.rest| < |s|
    decreases |s|
  {
    if s == [] || s[0] < ' ' then NoParse
    else if s[0] == '\"' then Parsed("", s[1..])
    else
      var first := if s[0] == '\\' then ParseEscape(s[1..]) else Parsed(s[0], s[1..]);
      match first
      case NoParse => NoParse
      case Parsed(c, more) =>
        match ParseChars(more)
        case NoParse => NoParse
        case Parsed(t, rest) => Parsed([c] + t, rest)
  }

  function DigitSpan(s: string): (k: nat)
    ensures k <= |s| && AllDigits(s[..k])
    ensures k < |s| ==> !IsDigit(s[k])
  {
    if s == [] || !IsDigit(s[0]) then 0
    else
      var k := DigitSpan(s[1..]);
      assert s[..k + 1] == [s[0]] + s[1..][..k];
      k + 1
  }

  function ParseNumber(s: string): (r: Parsed<Json>)
    ensures r.Parsed? ==> |r.rest| < |s|
  {
    var negative := s != [] && s[0] == '-';
    var digits := if negative then s[1..] else s;
    var k := DigitSpan(digits);
    if k == 0 then NoParse
    else
      var magnitude: int := Value(digits[..k]);
      Parsed(JInt(if negative then -magnitude else magnitude), digits[k..])
  }

  function ParseValue(s: string): (r: Parsed<Json>)
    ensures r.Parsed? ==> |r.rest| < |s|
    decreases |s|, 0
  {
    if s == [] then NoParse
    else if s[0] == 'n' then if "null" <= s then Parsed(JNull, s[4..]) else NoParse
    else if s[0] == '\"' then
      (match ParseChars(s[1..]) case NoParse => NoParse case Parsed(t, rest) => Parsed(JString(t), rest))
    else if s[0] == '[' then
      if "[]" <= s then Parsed(JArray([]), s[2..])
      else (match ParseItems(s[1..]) case NoParse => NoParse case Parsed(vs, rest) => Parsed(JArray(vs), rest))
    else if s[0] == '{' then
      if "{}" <= s then Parsed(JObject([]), s[2..])
      else (match ParseFields(s[1..]) case NoParse => NoParse case Parsed(fs, rest) => Parsed(JObject(fs), rest))
    else ParseNumber(s)
  }

  /** Reads the items of a non-empty array and its closing bracket. */
  function ParseItems(s: string): (r: Parsed<seq<Json>>)
    ensures r.Parsed? ==> |r.rest| < |s|
    decreases |s|, 1
  {
    match ParseValue(s)
    case NoParse => NoParse
    case Parsed(v, more) =>
      if more == [] then NoParse
      else if more[0] == ']' then Parsed([v], more[1..])
      else if more[0] != ',' then NoParse
      else match ParseItems(more[1..])
        case NoParse => NoParse
        case Parsed(vs, rest) => Parsed([v] + vs, rest)
  }

  function ParseField(s: string): (r: Parsed<Field>)
    ensures r.Parsed? ==> |r.rest| < |s|
    decreases |s|, 1
  {
    if s == [] || s[0] != '\"' then NoParse
    else match ParseChars(s[1..])
      case NoParse => NoParse
      case Parsed(k, more) =>
        if more == [] || more[0] != ':' then NoParse
        else match ParseValue(more[1..])
          case NoParse => NoParse
          case Parsed(v, rest) => Parsed(Field(k, v), rest)
  }

  /** Reads the members of a non-empty object and its closing brace. */
  function ParseFields(s: string): (r: Parsed<seq<Field>>)
    ensures r.Parsed? ==> |r.rest| < |s|
    decreases |s|, 2
  {
    match ParseField(s)
    case NoParse => NoParse
    case Parsed(f, more) =>
      if more == [] then NoParse
      else if more[0] == '}' then Parsed([f], more[1..])
      else if more[0] != ',' then NoParse
      else match ParseFields(more[1..])
        case NoParse => NoParse
        case Parsed(fs, rest) => Parsed([f] + fs, rest)
  }

  /** A whole document: UTF-8 text holding one value and nothing more. */
  function ParseDocument(b: Bytes): Option<Json> {
    match Utf8.Decode(b)
    case None => None
    case Some(s) =>
      match ParseValue(s)
      case NoParse => None
      case Parsed(v, rest) => if rest == "" then Some(v) else None
  }
}
