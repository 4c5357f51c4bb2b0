/** Decimal text: str(int) and the ASCII part of int(str). */
module Decimals {
  import opened Basics

  predicate IsDigit(c: char) { '0' <= c <= '9' }

  predicate AllDigits(s: string) { forall c :: c in s ==> IsDigit(c) }

  function DigitChar(d: nat): (c: char)
    requires d < 10
    ensures IsDigit(c) && DigitOf(c) == d
  {
    ('0' as int + d) as char
  }

  function DigitOf(c: char): (d: nat)
    requires IsDigit(c)
    ensures d < 10
  {
    c as int - '0' as int
  }

  /** str(n) for n >= 0. */
  function PrintNat(n: nat): (s: string)
    ensures s != [] && AllDigits(s)
  {
    if n < 10 then [DigitChar(n)] else PrintNat(n / 10) + [DigitChar(n % 10)]
  }

  function Value(s: string): nat
    requires AllDigits(s)
  {
    if s == [] then 0 else Value(s[..|s| - 1]) * 10 + DigitOf(s[|s| - 1])
  }

  lemma {:induction false} ValuePrintNat(n: nat)
    ensures Value(PrintNat(n)) == n
  {
    if n >= 10 {
      ValuePrintNat(n / 10);
      var s := PrintNat(n);
      assert s[..|s| - 1] == PrintNat(n / 10);
    }
  }

  lemma {:induction false} PrintNatInjective(m: nat, n: nat)
    requires PrintNat(m) == PrintNat(n)
    ensures m == n
  {
    ValuePrintNat(m);
    ValuePrintNat(n);
  }

  /** str(n). */
  function PrintInt(n: int): (s: string)
    ensures s != []
  {
    if n < 0 then "-" + PrintNat(-n) else PrintNat(n)
  }

  /** int(text) on trimmed ASCII text with an optional sign; None stands for ValueError. */
  function ParseInt(text: string): Option<int> { ParseTrimmed(Strip(text, IsSpace)) }

  function ParseTrimmed(t: string): Option<int> {
    if t == [] then None
    else if t[0] == '-' || t[0] == '+' then
      if |t| == 1 || !AllDigits(t[1..]) then None
      else
        var magnitude: int := Value(t[1..]);
        Some(if t[0] == '-' then -magnitude else magnitude)
    else if AllDigits(t) then Some(Value(t))
    else None
  }

  lemma ParsePrintInt(n: int)
    ensures ParseInt(PrintInt(n)) == Some(n)
  {
    var s := PrintInt(n);
    var digits := PrintNat(if n < 0 then -n else n);
    ValuePrintNat(if n < 0 then -n else n);
    assert s == if n < 0 then "-" + digits else digits;
    assert Strip(s, IsSpace) == s by {
      assert forall c :: c in s ==> c == '-' || IsDigit(c);
      StripClean(s, IsSpace);
    }
    if n < 0 {
      assert s[1..] == digits;
    } else {
      assert IsDigit(s[0]);
    }
  }

  /** Zero-padded to two places, as in the %m and %d of strftime. */
  function Pad2(n: nat): (s: string)
    requires n < 100
    ensures |s| == 2 && AllDigits(s) && Value(s) == n
  {
    var s := [DigitChar(n / 10), DigitChar(n % 10)];
    assert s[..1] == [DigitChar(n / 10)] && s[..1][..0] == [];
    assert Value(s[..1]) == Value([]) * 10 + DigitOf(s[..1][0]);
    s
  }

  // ---- which texts denote a positive number ----

  predicate All(s: string, p: char -> bool) { forall c :: c in s ==> p(c) }

  predicate IsZero(c: char) { c == '0' }

  lemma {:induction false} ValueZero(s: string)
    requires AllDigits(s)
    ensures Value(s) == 0 <==> All(s, IsZero)
  {
    if s != "" {
      var init := s[..|s| - 1];
      var c := s[|s| - 1];
      ValueZero(init);
      assert s == init + [c] && IsDigit(c);
      assert All(s, IsZero) <==> All(init, IsZero) && IsZero(c);
    }
  }

  /** A digit string of a positive value is its printed form behind zeros. */
  lemma {:induction false} DigitsOfValue(s: string)
    requires AllDigits(s) && Value(s) > 0
    ensures var k := |s| - |PrintNat(Value(s))|;
      k >= 0 && All(s[..k], IsZero) && s[k..] == PrintNat(Value(s))
  {
    var init, d := s[..|s| - 1], DigitOf(s[|s| - 1]);
    assert s == init + [DigitChar(d)];
    assert Value(s) == Value(init) * 10 + d;
    if Value(init) == 0 {
      ValueZero(init);
    } else {
      DigitsOfValue(init);
      assert Value(s) / 10 == Value(init) && Value(s) % 10 == d;
      var k := |init| - |PrintNat(Value(init))|;
      assert s[k..] == init[k..] + [DigitChar(d)] && s[..k] == init[..k];
    }
  }

  lemma {:induction false} ValueBehindZeros(zeros: string, digits: string)
    requires All(zeros, IsZero) && AllDigits(digits)
    ensures AllDigits(zeros + digits) && Value(zeros + digits) == Value(digits)
  {
    if digits == "" {
      assert zeros + digits == zeros;
      ValueZero(zeros);
    } else {
      var init := digits[..|digits| - 1];
      ValueBehindZeros(zeros, init);
      assert (zeros + digits)[..|zeros + digits| - 1] == zeros + init;
    }
  }

  /** `text` is n, written with spaces around, perhaps a plus sign, and perhaps zeros before it. */
  ghost predicate Writes(text: string, before: string, sign: string, zeros: string, n: nat, after: string) {
    && All(before, IsSpace) && All(after, IsSpace) && All(zeros, IsZero) && sign in {"", "+"}
    && text == before + (sign + (zeros + PrintNat(n))) + after
  }

  lemma {:induction false} ParseSigned(sign: string, digits: string)
    requires sign in {"", "+"} && digits != "" && AllDigits(digits)
    ensures ParseTrimmed(sign + digits) == Some(Value(digits))
    ensures (sign + digits)[0] == '+' || IsDigit((sign + digits)[0])
    ensures IsDigit((sign + digits)[|sign + digits| - 1])
  {
    var core := sign + digits;
    assert core[|core| - 1] == digits[|digits| - 1];
    if sign == "+" {
      assert core[1..] == digits;
    } else {
      assert core == digits && IsDigit(digits[0]);
    }
  }

  lemma ParseWritten(text: string, before: string, sign: string, zeros: string, n: nat, after: string)
    requires Writes(text, before, sign, zeros, n, after)
    ensures ParseInt(text) == Some(n)
  {
    ValueBehindZeros(zeros, PrintNat(n));
    ValuePrintNat(n);
    ParseSigned(sign, zeros + PrintNat(n));
    StripAround(before, sign + (zeros + PrintNat(n)), after, IsSpace);
  }

  /** What is read as a positive number is an optional plus sign and digits. */
  lemma TrimmedMeaning(core: string, n: nat) returns (sign: string, digits: string)
    requires n > 0 && ParseTrimmed(core) == Some(n)
    ensures sign in {"", "+"} && core == sign + digits && AllDigits(digits) && Value(digits) == n
  {
    sign := if core[0] == '+' then "+" else "";
    digits := core[|sign|..];
    if core[0] == '+' {
      assert core == "+" + core[1..];
    }
  }

  lemma ZerosBefore(digits: string) returns (zeros: string)
    requires AllDigits(digits) && Value(digits) > 0
    ensures All(zeros, IsZero) && digits == zeros + PrintNat(Value(digits))
  {
    DigitsOfValue(digits);
    var k := |digits| - |PrintNat(Value(digits))|;
    zeros := digits[..k];
    assert digits == digits[..k] + digits[k..];
  }

  lemma ThreePieces(text: string, i: nat, j: nat)
    requires i <= j <= |text|
    ensures text == text[..i] + text[i..j] + text[j..]
  {
  }

  lemma ParsedIsWritten(text: string, n: nat)
    requires n > 0 && ParseInt(text) == Some(n)
    ensures exists before, sign, zeros, after :: Writes(text, before, sign, zeros, n, after)
  {
    var i, j := StripCut(text, IsSpace);
    var core := text[i..j];
    var sign, digits := TrimmedMeaning(core, n);
    var zeros := ZerosBefore(digits);
    ThreePieces(text, i, j);
    assert Writes(text, text[..i], sign, zeros, n, text[j..]);
  }

  /** int(text) is a positive n exactly for these texts: " 42 ", "042" and "+42" are all 42. */
  lemma ParsePositiveMeaning(text: string, n: nat)
    requires n > 0
    ensures ParseInt(text) == Some(n)
       <==> exists before, sign, zeros, after :: Writes(text, before, sign, zeros, n, after)
  {
    if before, sign, zeros, after :| Writes(text, before, sign, zeros, n, after) {
      ParseWritten(text, before, sign, zeros, n, after);
    }
    if ParseInt(text) == Some(n) {
      ParsedIsWritten(text, n);
    }
  }

  /** `text` is the number n >= 0: as Writes has it, or a zero behind a minus sign. */
  ghost predicate WritesNat(text: string, n: nat) {
    || (exists before, sign, zeros, after :: Writes(text, before, sign, zeros, n, after))
    || (n == 0 && exists before, zeros, after :: WritesMinusZero(text, before, zeros, after))
  }

  ghost predicate WritesMinusZero(text: string, before: string, zeros: string, after: string) {
    && All(before, IsSpace) && All(after, IsSpace) && All(zeros, IsZero) && zeros != ""
    && text == before + ("-" + zeros) + after
  }

  lemma {:induction false} MinusZeroIsZero(text: string, before: string, zeros: string, after: string)
    requires WritesMinusZero(text, before, zeros, after)
    ensures ParseInt(text) == Some(0)
  {
    ValueZero(zeros);
    var core := "-" + zeros;
    assert core[1..] == zeros && core[|core| - 1] == zeros[|zeros| - 1];
    StripAround(before, core, after, IsSpace);
  }

  lemma {:induction false} ZeroTrimmed(core: string) returns (sign: string, zeros: string)
    requires ParseTrimmed(core) == Some(0)
    ensures sign in {"", "+", "-"} && zeros != "" && All(zeros, IsZero) && core == sign + zeros
  {
    sign := if core[0] == '-' then "-" else if core[0] == '+' then "+" else "";
    zeros := core[|sign|..];
    ValueZero(zeros);
    assert core == sign + zeros;
  }

  lemma {:induction false} LastZero(zeros: string)
    requires zeros != "" && All(zeros, IsZero)
    ensures var k := |zeros| - 1; All(zeros[..k], IsZero) && zeros == zeros[..k] + PrintNat(0)
  {
    assert zeros[|zeros| - 1] in zeros && PrintNat(0) == "0";
  }

  lemma {:induction false} ZeroIsWritten(text: string)
    requires ParseInt(text) == Some(0)
    ensures WritesNat(text, 0)
  {
    var i, j := StripCut(text, IsSpace);
    ThreePieces(text, i, j);
    var sign, zeros := ZeroTrimmed(text[i..j]);
    if sign == "-" {
      assert WritesMinusZero(text, text[..i], zeros, text[j..]);
    } else {
      LastZero(zeros);
      assert Writes(text, text[..i], sign, zeros[..|zeros| - 1], 0, text[j..]);
    }
  }

  /** int(text) is n >= 0 exactly for these texts. */
  lemma {:induction false} ParseNatMeaning(text: string, n: nat)
    ensures ParseInt(text) == Some(n) <==> WritesNat(text, n)
  {
    if n > 0 {
      ParsePositiveMeaning(text, n);
    } else {
      if before, sign, zeros, after :| Writes(text, before, sign, zeros, 0, after) {
        ParseWritten(text, before, sign, zeros, 0, after);
      }
      if before, zeros, after :| WritesMinusZero(text, before, zeros, after) {
        MinusZeroIsZero(text, before, zeros, after);
      }
      if ParseInt(text) == Some(0) {
        ZeroIsWritten(text);
      }
    }
  }

  /** Some numbers, written and read. */
  lemma {:induction false} Examples()
    ensures PrintNat(0) == "0" && PrintNat(42) == "42" && PrintNat(907) == "907"
    ensures Value("42") == 42 && Value("907") == 907 && Value("0042") == 42
  {
    assert PrintNat(4) == "4" && PrintNat(9) == "9" && PrintNat(90) == "90";
    assert 42 / 10 == 4 && 907 / 10 == 90 && 90 / 10 == 9;
    ValuePrintNat(42);
    ValuePrintNat(907);
    ValueBehindZeros("00", "42");
    assert "00" + "42" == "0042";
  }
}
