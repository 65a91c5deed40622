/** The string operations the service uses, on sequences of Unicode characters. */
module Text {
  import opened Prelude

  /** Characters with the Unicode White_Space property, as `char::is_whitespace` decides. */
  predicate IsWhitespace(c: char) {
    || '\U{0009}' <= c <= '\U{000D}' || c == ' ' || c == '\U{0085}' || c == '\U{00A0}' || c == '\U{1680}'
    || '\U{2000}' <= c <= '\U{200A}' || c == '\U{2028}' || c == '\U{2029}' || c == '\U{202F}' || c == '\U{205F}'
    || c == '\U{3000}'
  }

  /** `value.trim().is_empty()`. */
  predicate Blank(s: string) {
    forall i :: 0 <= i < |s| ==> IsWhitespace(s[i])
  }

  function LowerAscii(c: char): char {
    if 'A' <= c <= 'Z' then (c as int + 32) as char else c
  }

  predicate EqIgnoreAsciiCase(a: string, b: string) {
    |a| == |b| && forall i :: 0 <= i < |a| ==> LowerAscii(a[i]) == LowerAscii(b[i])
  }

  predicate IsDigit(c: char) { '0' <= c <= '9' }

  predicate IsAlphanumeric(c: char) { IsDigit(c) || 'a' <= c <= 'z' || 'A' <= c <= 'Z' }

  predicate IsHex(c: char) { IsDigit(c) || 'a' <= c <= 'f' || 'A' <= c <= 'F' }

  predicate StartsWith(s: string, prefix: string) { prefix <= s }

  /** `s.contains("..")`. */
  predicate ContainsDotDot(s: string) {
    exists i :: 0 <= i < |s| - 1 && s[i] == '.' && s[i + 1] == '.'
  }

  /** Index of the first `c` in `s`, if any; what `split_once` splits at. */
  function FirstIndexOf(s: string, c: char): (r: Option<nat>)
    ensures r.Some? ==> r.value < |s| && s[r.value] == c && c !in s[..r.value]
    ensures r.None? <==> c !in s
  {
    if s == [] then None
    else if s[0] == c then Some(0)
    else
      var rest := FirstIndexOf(s[1..], c);
      assert s == [s[0]] + s[1..];
      if rest.Some? then
        assert s[..rest.value + 1] == [s[0]] + s[1..][..rest.value];
        Some(rest.value + 1)
      else None
  }

  lemma {:induction false} FirstIndexAfter(pre: string, c: char, post: string)
    requires c !in pre
    ensures FirstIndexOf(pre + [c] + post, c) == Some(|pre|)
  {
    var s := pre + [c] + post;
    if pre != [] {
      FirstIndexAfter(pre[1..], c, post);
      assert s[0] == pre[0] && s[1..] == pre[1..] + [c] + post;
    }
  }

  /** `s.split(c).count()`: one more than the number of separators. */
  function SplitCount(s: string, c: char): nat {
    if s == [] then 1 else (if s[0] == c then 1 else 0) + SplitCount(s[1..], c)
  }

  lemma {:induction false} SplitWithoutSeparator(s: string, c: char)
    requires c !in s
    ensures SplitCount(s, c) == 1
  {
    if s != [] {
      SplitWithoutSeparator(s[1..], c);
    }
  }

  /** The length of `s` in UTF-8 bytes, which is what `len()` counts. */
  function Utf8Length(s: string): nat {
    if s == [] then 0
    else
      var c := s[0];
      (if c < '\U{0080}' then 1 else if c < '\U{0800}' then 2 else if c < '\U{10000}' then 3 else 4)
      + Utf8Length(s[1..])
  }

  lemma {:induction false} AsciiLength(s: string)
    requires forall i :: 0 <= i < |s| ==> s[i] < '\U{0080}'
    ensures Utf8Length(s) == |s|
  {
    if s != [] {
      AsciiLength(s[1..]);
    }
  }

  // ---- What the operations mean, spelled out ----

  const LOWER := "abcdefghijklmnopqrstuvwxyz"
  const UPPER := "ABCDEFGHIJKLMNOPQRSTUVWXYZ"
  const DIGITS := "0123456789"

  /** The same ASCII letter in either case, or the same character. */
  ghost predicate SameLetter(a: char, b: char) {
    a == b || exists i :: 0 <= i < 26 && a in [LOWER[i], UPPER[i]] && b in [LOWER[i], UPPER[i]]
  }

  lemma LowerCaseOf(i: nat)
    requires i < 26
    ensures LOWER[i] as int == 97 + i && UPPER[i] as int == 65 + i
  {
  }

  lemma LetterLowers(c: char, i: nat)
    requires i < 26
    ensures c in [LOWER[i], UPPER[i]] <==> LowerAscii(c) as int == 97 + i
  {
    LowerCaseOf(i);
  }

  lemma LowerAsciiMeans(a: char, b: char)
    ensures LowerAscii(a) == LowerAscii(b) <==> SameLetter(a, b)
  {
    if LowerAscii(a) == LowerAscii(b) && a != b {
      var i := LowerAscii(a) as int - 97;
      LetterLowers(a, i);
      LetterLowers(b, i);
    }
    if i :| 0 <= i < 26 && a in [LOWER[i], UPPER[i]] && b in [LOWER[i], UPPER[i]] {
      LetterLowers(a, i);
      LetterLowers(b, i);
    }
  }

  /** Two strings are equal ignoring ASCII case when they are the same letters, one by one. */
  lemma IgnoringCaseMeans(a: string, b: string)
    ensures EqIgnoreAsciiCase(a, b) <==> |a| == |b| && forall i :: 0 <= i < |a| ==> SameLetter(a[i], b[i])
  {
    forall i | 0 <= i < |a| && i < |b| ensures LowerAscii(a[i]) == LowerAscii(b[i]) <==> SameLetter(a[i], b[i]) {
      LowerAsciiMeans(a[i], b[i]);
    }
  }

  lemma DigitOf(i: nat)
    requires i < 10
    ensures DIGITS[i] as int == 48 + i
  {
  }

  lemma DigitMeans(c: char)
    ensures IsDigit(c) <==> c in DIGITS
  {
    if IsDigit(c) {
      DigitOf(c as int - 48);
    }
    if c in DIGITS {
      var i :| 0 <= i < |DIGITS| && DIGITS[i] == c;
      DigitOf(i);
    }
  }

  lemma LetterMeans(c: char)
    ensures ('a' <= c <= 'z' <==> c in LOWER) && ('A' <= c <= 'Z' <==> c in UPPER)
  {
    if 'a' <= c <= 'z' {
      LowerCaseOf(c as int - 97);
    }
    if 'A' <= c <= 'Z' {
      LowerCaseOf(c as int - 65);
    }
    if c in LOWER {
      var i :| 0 <= i < |LOWER| && LOWER[i] == c;
      LowerCaseOf(i);
    }
    if c in UPPER {
      var i :| 0 <= i < |UPPER| && UPPER[i] == c;
      LowerCaseOf(i);
    }
  }

  lemma AlphanumericMeans(c: char)
    ensures IsAlphanumeric(c) <==> c in LOWER + UPPER + DIGITS
  {
    DigitMeans(c);
    LetterMeans(c);
  }

  lemma HexOf(i: nat)
    requires i < 6
    ensures "abcdef"[i] as int == 97 + i && "ABCDEF"[i] as int == 65 + i
  {
  }

  lemma HexMeans(c: char)
    ensures IsHex(c) <==> c in DIGITS + "abcdef" + "ABCDEF"
  {
    DigitMeans(c);
    if 'a' <= c <= 'f' {
      HexOf(c as int - 97);
    }
    if 'A' <= c <= 'F' {
      HexOf(c as int - 65);
    }
    if c in "abcdef" {
      var i :| 0 <= i < |"abcdef"| && "abcdef"[i] == c;
      HexOf(i);
    }
    if c in "ABCDEF" {
      var i :| 0 <= i < |"ABCDEF"| && "ABCDEF"[i] == c;
      HexOf(i);
    }
  }

  lemma {:induction false} SplitAfterPart(part: string, c: char, rest: string)
    requires c !in part
    ensures SplitCount(part + [c] + rest, c) == 1 + SplitCount(rest, c)
  {
    if part == [] {
      assert part + [c] + rest == [c] + rest && ([c] + rest)[1..] == rest;
    } else {
      SplitAfterPart(part[1..], c, rest);
      assert (part + [c] + rest)[1..] == part[1..] + [c] + rest;
    }
  }

  lemma SplitOff(s: string, c: char) returns (part: string, rest: string)
    requires SplitCount(s, c) != 1
    ensures c !in part && s == part + [c] + rest && SplitCount(s, c) == 1 + SplitCount(rest, c)
  {
    var found := FirstIndexOf(s, c);
    if found.None? {
      SplitWithoutSeparator(s, c);
    } else {
      part, rest := s[..found.value], s[found.value + 1..];
      assert s == part + [c] + rest;
      SplitAfterPart(part, c, rest);
    }
  }

  /** Three parts without the separator, and two separators between them. */
  ghost predicate ThreeParts(s: string, c: char, p: string, q: string, r: string) {
    c !in p && c !in q && c !in r && s == p + [c] + q + [c] + r
  }

  lemma SplitInThreeMeans(s: string, c: char)
    ensures SplitCount(s, c) == 3 <==> exists p, q, r :: ThreeParts(s, c, p, q, r)
  {
    if SplitCount(s, c) == 3 {
      var p, rest := SplitOff(s, c);
      var q, r := SplitOff(rest, c);
      if c in r {
        MoreThanOne(r, c);
      }
      assert p + [c] + (q + [c] + r) == p + [c] + q + [c] + r;
      assert ThreeParts(s, c, p, q, r);
    }
    if p, q, r :| ThreeParts(s, c, p, q, r) {
      assert s == p + [c] + (q + [c] + r);
      SplitAfterPart(p, c, q + [c] + r);
      SplitAfterPart(q, c, r);
      SplitWithoutSeparator(r, c);
    }
  }

  lemma {:induction false} MoreThanOne(s: string, c: char)
    requires c in s
    ensures SplitCount(s, c) > 1
  {
    if s[0] != c {
      MoreThanOne(s[1..], c);
    } else {
      AtLeastOne(s[1..], c);
    }
  }

  lemma {:induction false} AtLeastOne(s: string, c: char)
    ensures SplitCount(s, c) >= 1
  {
    if s != [] {
      AtLeastOne(s[1..], c);
    }
  }

  /** UTF-8 length, character by character. */
  lemma {:induction false} Utf8LengthAppend(s: string, c: char)
    ensures Utf8Length(s + [c])
         == Utf8Length(s)
            + (if c as int < 0x80 then 1 else if c as int < 0x800 then 2 else if c as int < 0x1_0000 then 3 else 4)
  {
    if s != [] {
      Utf8LengthAppend(s[1..], c);
      assert (s + [c])[1..] == s[1..] + [c];
    }
  }

  /** The characters with the Unicode White_Space property. */
  lemma WhitespaceMeans(c: char)
    ensures IsWhitespace(c) <==>
            c as int in {9, 10, 11, 12, 13, 32, 0x85, 0xA0, 0x1680, 0x2000, 0x2001, 0x2002, 0x2003, 0x2004, 0x2005,
                         0x2006, 0x2007, 0x2008, 0x2009, 0x200A, 0x2028, 0x2029, 0x202F, 0x205F, 0x3000}
  {
  }
}
