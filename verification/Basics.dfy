/** Values shared by every other module: options, bytes, and text helpers in Python's sense. */
module Basics {

  datatype Option<+T> = None | Some(value: T)

  type Byte = b: int | 0 <= b < 256
  type Bytes = seq<Byte>

  // ---- concatenation ----

  function Flatten<T>(xss: seq<seq<T>>): seq<T> {
    if xss == [] then [] else xss[0] + Flatten(xss[1..])
  }

  lemma ConcatAssociative<T>(xs: seq<T>, ys: seq<T>, zs: seq<T>)
    ensures xs + (ys + zs) == xs + ys + zs
  {
  }

  lemma {:induction false} FlattenAppend<T>(xss: seq<seq<T>>, yss: seq<seq<T>>)
    ensures Flatten(xss + yss) == Flatten(xss) + Flatten(yss)
  {
    if xss == [] {
      assert xss + yss == yss;
    } else {
      FlattenAppend(xss[1..], yss);
      assert (xss + yss)[0] == xss[0] && (xss + yss)[1..] == xss[1..] + yss;
      ConcatAssociative(xss[0], Flatten(xss[1..]), Flatten(yss));
    }
  }

  lemma FlattenSnoc<T>(xss: seq<seq<T>>, i: nat)
    requires i < |xss|
    ensures Flatten(xss[..i + 1]) == Flatten(xss[..i]) + xss[i]
  {
    assert xss[..i + 1] == xss[..i] + [xss[i]];
    FlattenAppend(xss[..i], [xss[i]]);
    assert Flatten([xss[i]]) == xss[i] + Flatten<T>([]);
  }

  lemma {:induction false} FlattenPrefixBound<T>(xss: seq<seq<T>>, i: nat)
    requires i <= |xss|
    ensures |Flatten(xss[..i])| <= |Flatten(xss)|
  {
    FlattenAppend(xss[..i], xss[i..]);
    assert xss[..i] + xss[i..] == xss;
  }

  // ---- Python's str.strip, str.removeprefix and str.lower ----

  /** The characters Python's str.isspace accepts. */
  predicate IsSpace(c: char) {
    || '\t' <= c <= '\r' || '\U{1c}' <= c <= ' ' || c == '\U{85}' || c == '\U{a0}' || c == '\U{1680}'
    || '\U{2000}' <= c <= '\U{200a}' || c == '\U{2028}' || c == '\U{2029}' || c == '\U{202f}'
    || c == '\U{205f}' || c == '\U{3000}'
  }

  function StripLeft(s: string, drop: char -> bool): (r: string)
    ensures r == [] || !drop(r[0])
    ensures r <= s || |r| < |s|
    ensures |s| > 0 && !drop(s[0]) ==> r == s
  {
    if s == [] then [] else if drop(s[0]) then StripLeft(s[1..], drop) else s
  }

  function StripRight(s: string, drop: char -> bool): (r: string)
    ensures r <= s
    ensures r == [] || !drop(r[|r| - 1])
    ensures |s| > 0 && !drop(s[|s| - 1]) ==> r == s
  {
    if s == [] then [] else if drop(s[|s| - 1]) then StripRight(s[..|s| - 1], drop) else s
  }

  function Strip(s: string, drop: char -> bool): string {
    StripRight(StripLeft(s, drop), drop)
  }

  lemma {:induction false} StripLeftCut(s: string, drop: char -> bool)
    ensures var n := |s| - |StripLeft(s, drop)|;
      n >= 0 && s[n..] == StripLeft(s, drop) && forall i :: 0 <= i < n ==> drop(s[i])
  {
    if s != [] && drop(s[0]) {
      StripLeftCut(s[1..], drop);
      var n := |s[1..]| - |StripLeft(s[1..], drop)|;
      assert forall i :: 1 <= i < n + 1 ==> s[i] == s[1..][i - 1];
    }
  }

  lemma {:induction false} StripRightCut(s: string, drop: char -> bool)
    ensures forall i :: |StripRight(s, drop)| <= i < |s| ==> drop(s[i])
  {
    if s != [] && drop(s[|s| - 1]) {
      StripRightCut(s[..|s| - 1], drop);
    }
  }

  lemma StripCut(s: string, drop: char -> bool) returns (i: nat, j: nat)
    ensures i <= j <= |s| && Strip(s, drop) == s[i..j]
    ensures forall k :: 0 <= k < i || j <= k < |s| ==> drop(s[k])
    ensures i < j ==> !drop(s[i]) && !drop(s[j - 1])
  {
    var l := StripLeft(s, drop);
    StripLeftCut(s, drop);
    StripRightCut(l, drop);
    i := |s| - |l|;
    j := i + |Strip(s, drop)|;
    assert forall k :: j <= k < |s| ==> s[k] == l[k - i];
    assert Strip(s, drop) == s[i..j];
  }

  /** What is left after stripping is the middle of the text: all around it goes, and neither of its ends does. */
  lemma StripMeaning(s: string, drop: char -> bool)
    ensures exists i, j :: (0 <= i <= j <= |s| && Strip(s, drop) == s[i..j]
      && (forall k :: 0 <= k < i || j <= k < |s| ==> drop(s[k])) && (i < j ==> !drop(s[i]) && !drop(s[j - 1])))
  {
    var i, j := StripCut(s, drop);
  }

  /** There is only one such middle, if there is anything to keep. */
  lemma StripAround(before: string, core: string, after: string, drop: char -> bool)
    requires core != "" && !drop(core[0]) && !drop(core[|core| - 1])
    requires forall c :: c in before || c in after ==> drop(c)
    ensures Strip(before + core + after, drop) == core
  {
    var s := before + core + after;
    var i, j := StripCut(s, drop);
    assert s[|before|] == core[0] && s[|before| + |core| - 1] == core[|core| - 1];
    assert forall k :: 0 <= k < |before| ==> drop(s[k]);
    assert forall k :: |before| + |core| <= k < |s| ==> drop(s[k]);
    assert i == |before| && j == |before| + |core|;
  }

  lemma StripClean(s: string, drop: char -> bool)
    requires forall c :: c in s ==> !drop(c)
    ensures Strip(s, drop) == s
  {
  }

  /** ASCII letters only; other characters are kept. */
  function Lower(s: string): (r: string)
    ensures |r| == |s|
    ensures forall i :: 0 <= i < |s| ==> r[i] == LowerChar(s[i])
  {
    seq(|s|, i requires 0 <= i < |s| => LowerChar(s[i]))
  }

  function LowerChar(c: char): char {
    if 'A' <= c <= 'Z' then (c as int + 32) as char else c
  }

  /** The same letter, or an ASCII capital and its small letter. */
  predicate SameLetter(c: char, small: char) { c == small || ('A' <= c <= 'Z' && c as int + 32 == small as int) }

  /** `small` written in letters of any case. */
  predicate SpellsAnyCase(text: string, small: string) {
    |text| == |small| && forall i :: 0 <= i < |small| ==> SameLetter(text[i], small[i])
  }

  predicate HasNoCapitals(s: string) { forall i :: 0 <= i < |s| ==> !('A' <= s[i] <= 'Z') }

  lemma LowerMeaning(text: string, small: string)
    requires HasNoCapitals(small)
    ensures Lower(text) == small <==> SpellsAnyCase(text, small)
  {
    if SpellsAnyCase(text, small) {
      assert forall i :: 0 <= i < |small| ==> Lower(text)[i] == small[i];
    } else if |text| == |small| {
      assert exists i :: 0 <= i < |small| && !SameLetter(text[i], small[i]) && Lower(text)[i] != small[i];
    }
  }

  lemma LowerHasNoCapitals(text: string)
    ensures HasNoCapitals(Lower(text)) && SpellsAnyCase(text, Lower(text))
  {
  }

  /** `core` with characters to drop around it. */
  ghost predicate Surrounds(text: string, core: string, drop: char -> bool) {
    exists before, after :: (text == before + core + after && forall c :: c in before || c in after ==> drop(c))
  }

  /** Stripping leaves a text that has something to keep at both ends exactly when that text stands there with only
      characters to drop around it. */
  lemma StripIsMiddle(s: string, core: string, drop: char -> bool)
    requires core != "" && !drop(core[0]) && !drop(core[|core| - 1])
    ensures Strip(s, drop) == core <==> Surrounds(s, core, drop)
  {
    if Strip(s, drop) == core {
      var i, j := StripCut(s, drop);
      assert s == s[..i] + core + s[j..];
      assert forall c :: c in s[..i] || c in s[j..] ==> drop(c);
    }
    if before, after :| s == before + core + after && forall c :: c in before || c in after ==> drop(c) {
      StripAround(before, core, after, drop);
    }
  }

  /** Nothing is left exactly of texts in which everything is to be dropped. */
  lemma StripIsEmpty(s: string, drop: char -> bool)
    ensures Strip(s, drop) == "" <==> forall c :: c in s ==> drop(c)
  {
    var i, j := StripCut(s, drop);
    if i < j {
      assert s[i] in s;
    }
  }

  /** The ASCII spaces are tab to carriage return, the four separators, and the blank; no visible character is one. */
  lemma AsciiSpaces(c: char)
    requires c as int < 128
    ensures IsSpace(c) <==> 9 <= c as int <= 13 || 28 <= c as int <= 32
  {
  }
}
