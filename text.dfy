/** The Python string operations the scraper applies to the text it reads from the page:
    `str.strip()`, `str.split()[0]`, `str.isdigit()`, `int(...)` on a digit string,
    the decimal formatting of an `int` in an f-string, and the substring test of
    XPath's `contains()`. */
module Text {
  import opened Wrappers

  /** The characters Python's `str.isspace()` accepts; `strip()` and `split()` with no
      argument remove exactly these. */
  predicate IsSpace(c: char) {
    ('\t' <= c <= '\r') || ('\U{1C}' <= c <= '\U{1F}') || c == ' ' ||
    c == '\U{85}' || c == '\U{A0}' || c == '\U{1680}' || ('\U{2000}' <= c <= '\U{200A}') ||
    c == '\U{2028}' || c == '\U{2029}' || c == '\U{202F}' || c == '\U{205F}' || c == '\U{3000}'
  }

  predicate AllSpace(s: string) {
    forall i :: 0 <= i < |s| ==> IsSpace(s[i])
  }

  predicate NoSpace(s: string) {
    forall i :: 0 <= i < |s| ==> !IsSpace(s[i])
  }

  /** `s` with no whitespace at either end. */
  predicate IsTrimmed(s: string) {
    s == [] || (!IsSpace(s[0]) && !IsSpace(s[|s| - 1]))
  }

  /** `s.lstrip()`. */
  function TrimStart(s: string): string {
    if s != [] && IsSpace(s[0]) then TrimStart(s[1..]) else s
  }

  /** TrimStart leaves the suffix of `s` after its leading whitespace. */
  lemma {:induction false} TrimStartSpec(s: string)
    ensures var r := TrimStart(s);
      |r| <= |s| && r == s[|s| - |r|..] && AllSpace(s[..|s| - |r|]) && (r == [] || !IsSpace(r[0]))
  {
    if s != [] && IsSpace(s[0]) {
      TrimStartSpec(s[1..]);
      var r := TrimStart(s[1..]);
      assert s[..|s| - |r|] == [s[0]] + s[1..][..|s| - 1 - |r|];
    }
  }

  /** `s.rstrip()`. */
  function TrimEnd(s: string): string {
    if s != [] && IsSpace(s[|s| - 1]) then TrimEnd(s[..|s| - 1]) else s
  }

  /** TrimEnd leaves the prefix of `s` before its trailing whitespace. */
  lemma {:induction false} TrimEndSpec(s: string)
    ensures var r := TrimEnd(s);
      |r| <= |s| && r == s[..|r|] && AllSpace(s[|r|..]) && (r == [] || !IsSpace(r[|r| - 1]))
  {
    if s != [] && IsSpace(s[|s| - 1]) {
      TrimEndSpec(s[..|s| - 1]);
      var r := TrimEnd(s[..|s| - 1]);
      assert s[|r|..] == s[..|s| - 1][|r|..] + [s[|s| - 1]];
    }
  }

  /** `r` is what is left of `s` once the whitespace on both sides is taken off, and it
      starts at offset `i` of `s`. */
  predicate StripsTo(s: string, i: nat, r: string) {
    i + |r| <= |s| && s[i..i + |r|] == r && AllSpace(s[..i]) && AllSpace(s[i + |r|..]) && IsTrimmed(r)
  }

  /** `s.strip()`. */
  function Strip(s: string): string {
    TrimEnd(TrimStart(s))
  }

  /** Strip takes off the whitespace on both sides and nothing else. */
  lemma StripSpec(s: string)
    ensures exists i: nat :: StripsTo(s, i, Strip(s))
  {
    TrimStartSpec(s);
    var t := TrimStart(s);
    TrimEndSpec(t);
    var r := TrimEnd(t);
    var i: nat := |s| - |t|;
    assert s[i..i + |r|] == r;
    assert s[i + |r|..] == t[|r|..];
    assert IsTrimmed(r);
    assert StripsTo(s, i, Strip(s));
  }

  lemma SpaceInside(s: string, k: nat, lo: nat, hi: nat)
    requires lo <= k < hi <= |s| && AllSpace(s[lo..hi])
    ensures IsSpace(s[k])
  {
    assert s[lo..hi][k - lo] == s[k];
  }

  /** What StripsTo describes is unique. */
  lemma StripsToUnique(s: string, i: nat, t: string, j: nat, r: string)
    requires StripsTo(s, i, t) && StripsTo(s, j, r)
    ensures t == r
  {
    assert s[..i] == s[0..i] && s[..j] == s[0..j];
    if t != [] && r != [] {
      assert s[i] == t[0] && s[j] == r[0];
      if i < j { SpaceInside(s, i, 0, j); }
      if j < i { SpaceInside(s, j, 0, i); }
      var e, f := i + |t|, j + |r|;
      assert s[e - 1] == t[|t| - 1] && s[f - 1] == r[|r| - 1];
      assert s[e..] == s[e..|s|] && s[f..] == s[f..|s|];
    } else if t != [] {
      assert s[i] == t[0];
      assert s[j..] == s[j..|s|];
      if i < j { SpaceInside(s, i, 0, j); }
    } else if r != [] {
      assert s[j] == r[0];
      assert s[i..] == s[i..|s|];
      if j < i { SpaceInside(s, j, 0, i); }
    }
  }

  /** A trimmed slice of `s` with only whitespace around it is `Strip(s)`: StripSpec
      determines Strip. */
  lemma StripUnique(s: string, i: nat, t: string)
    requires StripsTo(s, i, t)
    ensures Strip(s) == t
  {
    StripSpec(s);
    var j: nat :| StripsTo(s, j, Strip(s));
    StripsToUnique(s, i, t, j, Strip(s));
  }

  /** Stripping twice is stripping once. */
  lemma StripIdempotent(s: string)
    ensures Strip(Strip(s)) == Strip(s)
  {
    StripSpec(s);
    var r := Strip(s);
    var j: nat :| StripsTo(s, j, r);
    assert r[0..|r|] == r && r[..0] == [] && r[|r|..] == [];
    StripUnique(r, 0, r);
  }

  /** Strip leaves a string unchanged exactly when it has no whitespace at either end. */
  lemma StripFixedPoint(s: string)
    ensures Strip(s) == s <==> IsTrimmed(s)
  {
    StripSpec(s);
    if IsTrimmed(s) {
      assert s[..0] == [] && s[0..|s|] == s && s[|s|..] == [];
      StripUnique(s, 0, s);
    }
  }

  /** Text made of whitespace only strips to the empty string. */
  lemma StripAllSpace(s: string)
    requires AllSpace(s)
    ensures Strip(s) == ""
  {
    assert s[..0] == [] && s[0..0] == [] && s[0..] == s;
    StripUnique(s, 0, "");
  }

  /** The longest whitespace-free prefix of `s`. */
  function TakeWord(s: string): string {
    if s == [] || IsSpace(s[0]) then [] else [s[0]] + TakeWord(s[1..])
  }

  lemma {:induction false} TakeWordSpec(s: string)
    ensures var w := TakeWord(s);
      |w| <= |s| && w == s[..|w|] && NoSpace(w) && (|w| == |s| || IsSpace(s[|w|]))
  {
    if s != [] && !IsSpace(s[0]) {
      TakeWordSpec(s[1..]);
    }
  }

  /** `w` is the first whitespace-delimited word of `s` and starts at offset `i`. */
  predicate TokenAt(s: string, i: nat, w: string) {
    i + |w| <= |s| && s[i..i + |w|] == w && AllSpace(s[..i]) && w != [] && NoSpace(w) &&
    (i + |w| == |s| || IsSpace(s[i + |w|]))
  }

  /** `s.split()[0]`, or None where `s.split()` is the empty list and indexing it raises. */
  function FirstToken(s: string): Option<string> {
    var t := TrimStart(s);
    if t == [] then None else Some(TakeWord(t))
  }

  /** FirstToken finds nothing exactly in whitespace-only text, and otherwise the first
      word, a non-empty run of non-space characters with whitespace (or an end) on both
      sides. */
  lemma FirstTokenSpec(s: string)
    ensures FirstToken(s).None? <==> AllSpace(s)
    ensures FirstToken(s).Some? ==> exists i: nat :: TokenAt(s, i, FirstToken(s).value)
  {
    TrimStartSpec(s);
    var t := TrimStart(s);
    if t == [] {
      assert s[..|s|] == s;
    } else {
      TakeWordSpec(t);
      var w := TakeWord(t);
      var i: nat := |s| - |t|;
      assert s[i..i + |w|] == w;
      assert i + |w| < |s| ==> s[i + |w|] == t[|w|];
      assert TokenAt(s, i, w);
      assert s[i] == t[0];
    }
  }

  predicate IsDigit(c: char) {
    '0' <= c <= '9'
  }

  predicate AllDigits(s: string) {
    forall i :: 0 <= i < |s| ==> IsDigit(s[i])
  }

  /** `s.isdigit()` for ASCII text: non-empty and made of decimal digits only. */
  predicate IsDigits(s: string) {
    |s| > 0 && AllDigits(s)
  }

  /** `int(s)` for a string of decimal digits (leading zeros allowed). */
  function DigitsValue(s: string): nat
    requires AllDigits(s)
  {
    if s == [] then 0 else DigitsValue(s[..|s| - 1]) * 10 + (s[|s| - 1] as int - '0' as int)
  }

  function DigitChar(d: nat): (c: char)
    requires d < 10
    ensures IsDigit(c) && c as int - '0' as int == d
  {
    ('0' as int + d) as char
  }

  /** The decimal representation of `n`, as Python's `str(n)` gives it. */
  function NatToDigits(n: nat): (s: string)
    ensures IsDigits(s)
    ensures s[0] != '0' || s == "0"
  {
    if n < 10 then [DigitChar(n)] else NatToDigits(n / 10) + [DigitChar(n % 10)]
  }

  /** `str(n)`, or `f"{n}"`, for any integer. */
  function IntToString(n: int): (s: string)
    ensures s != []
    ensures n < 0 <==> s[0] == '-'
  {
    if n < 0 then "-" + NatToDigits(-n) else NatToDigits(n)
  }

  /** Parsing what `str` prints gives the number back. */
  lemma {:induction false} DigitsRoundTrip(n: nat)
    ensures DigitsValue(NatToDigits(n)) == n
  {
    var s := NatToDigits(n);
    if n >= 10 {
      DigitsRoundTrip(n / 10);
      assert s[..|s| - 1] == NatToDigits(n / 10);
    }
  }

  /** Different integers print differently. */
  lemma IntToStringInjective(a: int, b: int)
    ensures IntToString(a) == IntToString(b) <==> a == b
  {
    if IntToString(a) == IntToString(b) {
      if a < 0 {
        assert IntToString(a)[1..] == NatToDigits(-a) && IntToString(b)[1..] == NatToDigits(-b);
        DigitsRoundTrip(-a);
        DigitsRoundTrip(-b);
      } else {
        DigitsRoundTrip(a);
        DigitsRoundTrip(b);
      }
    }
  }

  /** `needle` occurs in `hay` at offset `k`. */
  predicate OccursAt(hay: string, needle: string, k: nat) {
    k + |needle| <= |hay| && hay[k..k + |needle|] == needle
  }

  /** XPath's `contains(hay, needle)`: `needle` occurs in `hay`. */
  predicate Contains(hay: string, needle: string)
    decreases |hay|
  {
    needle <= hay || (hay != [] && Contains(hay[1..], needle))
  }

  /** Contains holds exactly when `needle` sits at some offset of `hay`. */
  lemma {:induction false} ContainsAt(hay: string, needle: string)
    ensures Contains(hay, needle) <==> exists k: nat :: OccursAt(hay, needle, k)
    decreases |hay|
  {
    if needle <= hay {
      assert OccursAt(hay, needle, 0);
    } else if hay == [] {
    } else {
      ContainsAt(hay[1..], needle);
      if exists k: nat :: OccursAt(hay, needle, k) {
        var k: nat :| OccursAt(hay, needle, k);
        assert k != 0;
        assert hay[1..][k - 1..k - 1 + |needle|] == hay[k..k + |needle|];
        assert OccursAt(hay[1..], needle, k - 1);
      }
      if Contains(hay[1..], needle) {
        var k: nat :| OccursAt(hay[1..], needle, k);
        assert hay[k + 1..k + 1 + |needle|] == hay[1..][k..k + |needle|];
        assert OccursAt(hay, needle, k + 1);
      }
    }
  }
}
