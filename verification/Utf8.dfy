/** UTF-8 (section 3 of RFC 3629) over Unicode scalar values. */
module Utf8 {
  import opened Basics

  function EncodeChar(c: char): (b: Bytes)
    ensures b != []
    ensures c != '\n' ==> 0x0A !in b
  {
    var n := c as int;
    if n < 0x80 then [n]
    else if n < 0x800 then [0xC0 + n / 64, 0x80 + n % 64]
    else if n < 0x10000 then [0xE0 + n / 4096, 0x80 + n / 64 % 64, 0x80 + n % 64]
    else [0xF0 + n / 262144, 0x80 + n / 4096 % 64, 0x80 + n / 64 % 64, 0x80 + n % 64]
  }

  function Encode(s: string): Bytes {
    if s == [] then [] else EncodeChar(s[0]) + Encode(s[1..])
  }

  /** What a byte carries beside its tag bits. */
  function Bits(b: Byte, tag: int): int { b - tag }

  /** The scalar value announced by the leading byte, whatever the other bytes are. */
  function LeadingScalar(b: Bytes): int
    requires b != []
  {
    if b[0] < 0x80 then b[0]
    else if b[0] < 0xE0 && |b| >= 2 then Bits(b[0], 0xC0) * 64 + Bits(b[1], 0x80)
    else if 0xE0 <= b[0] < 0xF0 && |b| >= 3 then Bits(b[0], 0xE0) * 4096 + Bits(b[1], 0x80) * 64 + Bits(b[2], 0x80)
    else if 0xF0 <= b[0] && |b| >= 4 then
      Bits(b[0], 0xF0) * 262144 + Bits(b[1], 0x80) * 4096 + Bits(b[2], 0x80) * 64 + Bits(b[3], 0x80)
    else -1
  }

  /** Rejects truncated, overlong and surrogate sequences: the bytes must be the encoding of what they announce. */
  function Decode(b: Bytes): Option<string>
    decreases |b|
  {
    if b == [] then Some("")
    else
      var n := LeadingScalar(b);
      if !(0 <= n < 0xD800 || 0xE000 <= n < 0x110000) then None
      else
        var c := n as char;
        var head := EncodeChar(c);
        if !(head <= b) then None
        else match Decode(b[|head|..])
          case None => None
          case Some(tail) => Some([c] + tail)
  }

  lemma LeadingScalarOf(c: char, rest: Bytes)
    ensures LeadingScalar(EncodeChar(c) + rest) == c as int
  {
    var n := c as int;
    var e := EncodeChar(c);
    var b := e + rest;
    assert forall i :: 0 <= i < |e| ==> b[i] == e[i];
    Sextets(n);
  }

  /** A number from its base-64 digits. */
  lemma Sextets(n: nat)
    ensures n == n / 64 * 64 + n % 64
    ensures n == n / 4096 * 4096 + n / 64 % 64 * 64 + n % 64
    ensures n == n / 262144 * 262144 + n / 4096 % 64 * 4096 + n / 64 % 64 * 64 + n % 64
  {
    assert n / 64 / 64 == n / 4096 && n / 4096 / 64 == n / 262144;
  }

  lemma {:induction false} DecodeEncode(s: string)
    ensures Decode(Encode(s)) == Some(s)
  {
    if s != [] {
      var head, b := EncodeChar(s[0]), Encode(s);
      LeadingScalarOf(s[0], Encode(s[1..]));
      assert b[|head|..] == Encode(s[1..]);
      DecodeEncode(s[1..]);
      assert [s[0]] + s[1..] == s;
    }
  }

  lemma {:induction false} EncodeHasNoNewline(s: string)
    requires '\n' !in s
    ensures 0x0A !in Encode(s)
  {
    if s != [] {
      EncodeHasNoNewline(s[1..]);
    }
  }

  /** One character of each length. */
  lemma Examples()
    ensures EncodeChar('A') == [0x41]
    ensures EncodeChar('\U{e9}') == [0xC3, 0xA9]
    ensures EncodeChar('\U{20ac}') == [0xE2, 0x82, 0xAC]
    ensures EncodeChar('\U{10348}') == [0xF0, 0x90, 0x8D, 0x88]
  {
  }
}
