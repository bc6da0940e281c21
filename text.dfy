/**
 * The library text functions the engine relies on, written out over `seq<char>`:
 * display width (the go-runewidth package), UTF-8 length (Go's `len` on a string),
 * `strings.TrimSpace`, `strings.Split(s, "\n")` with its inverse, and `strings.Index`.
 *
 * Positions are counted in code points. Go works on byte offsets, but every offset the
 * engine slices at is a code-point boundary (UTF-8 is self-synchronising), so the two
 * counts name the same places; `ByteLen` converts where the engine divides by bytes.
 */
module Text {

  /** Code points that the East Asian Width property of Unicode Standard Annex #11
      classifies as Wide or Fullwidth, restricted to the main blocks (Hangul Jamo,
      CJK radicals to Yi, Hangul syllables, compatibility ideographs, CJK compatibility
      forms, fullwidth forms). The complete tables are not modelled. */
  predicate IsWideCodePoint(o: int) {
    || 0x1100 <= o <= 0x115F
    || 0x2E80 <= o <= 0x303E
    || 0x3041 <= o <= 0x33FF
    || 0x3400 <= o <= 0x4DBF
    || 0x4E00 <= o <= 0x9FFF
    || 0xA000 <= o <= 0xA4CF
    || 0xAC00 <= o <= 0xD7A3
    || 0xF900 <= o <= 0xFAFF
    || 0xFE30 <= o <= 0xFE4F
    || 0xFF00 <= o <= 0xFF60
    || 0xFFE0 <= o <= 0xFFE6
    || 0x20000 <= o <= 0x3FFFD
  }

  /** Columns one code point occupies: none for control characters, two for wide ones. */
  function CharWidth(c: char): (w: nat)
    ensures w <= 2
  {
    var o := c as int;
    if o < 0x20 || 0x7F <= o < 0xA0 then 0
    else if IsWideCodePoint(o) then 2
    else 1
  }

  /** Display width of a string: the sum of its code points' widths. */
  function Width(s: string): nat {
    if s == [] then 0 else CharWidth(s[0]) + Width(s[1..])
  }

  lemma {:induction false} WidthAppend(a: string, b: string)
    ensures Width(a + b) == Width(a) + Width(b)
  {
    if a != [] {
      assert (a + b)[0] == a[0] && (a + b)[1..] == a[1..] + b;
      WidthAppend(a[1..], b);
    } else {
      assert a + b == b;
    }
  }

  /** A prefix is never wider than the string it was cut from. */
  lemma WidthPrefix(s: string, i: nat, j: nat)
    requires i <= j <= |s|
    ensures Width(s[..i]) <= Width(s[..j])
  {
    assert s[..j] == s[..i] + s[i..j];
    WidthAppend(s[..i], s[i..j]);
  }

  /** Trimming white space never widens a string. */
  lemma TrimSpaceWidth(s: string)
    ensures Width(TrimSpace(s)) <= Width(s)
  {
    TrimSpaceSpec(s);
    var r := TrimSpace(s);
    var i := LeadingSpaces(s);
    assert s == s[..i] + r + s[i + |r|..];
    WidthAppend(s[..i] + r, s[i + |r|..]);
    WidthAppend(s[..i], r);
  }

  /** Bytes in the UTF-8 encoding of one code point. */
  function CharByteLen(c: char): (n: nat)
    ensures 1 <= n <= 4
  {
    var o := c as int;
    if o < 0x80 then 1 else if o < 0x800 then 2 else if o < 0x10000 then 3 else 4
  }

  /** Go's `len(s)`: bytes in the UTF-8 encoding of `s`. */
  function ByteLen(s: string): (n: nat)
    ensures |s| <= n <= 4 * |s|
  {
    if s == [] then 0 else CharByteLen(s[0]) + ByteLen(s[1..])
  }

  lemma {:induction false} ByteLenAppend(a: string, b: string)
    ensures ByteLen(a + b) == ByteLen(a) + ByteLen(b)
  {
    if a != [] {
      assert (a + b)[0] == a[0] && (a + b)[1..] == a[1..] + b;
      ByteLenAppend(a[1..], b);
    } else {
      assert a + b == b;
    }
  }

  /** Go's `unicode.IsSpace`: the Latin-1 spaces and the Unicode White_Space code points. */
  predicate IsSpace(c: char) {
    var o := c as int;
    || 0x09 <= o <= 0x0D || o == 0x20 || o == 0x85 || o == 0xA0
    || o == 0x1680 || 0x2000 <= o <= 0x200A || o == 0x2028 || o == 0x2029
    || o == 0x202F || o == 0x205F || o == 0x3000
  }

  /** Number of white-space code points `s` starts with. */
  function LeadingSpaces(s: string): (n: nat)
    ensures n <= |s|
  {
    if s != [] && IsSpace(s[0]) then 1 + LeadingSpaces(s[1..]) else 0
  }

  /** Number of white-space code points `s` ends with. */
  function TrailingSpaces(s: string): (n: nat)
    ensures n <= |s|
  {
    if s != [] && IsSpace(s[|s| - 1]) then 1 + TrailingSpaces(s[..|s| - 1]) else 0
  }

  /** `LeadingSpaces` counts the white space up to the first other code point. */
  lemma {:induction false} LeadingSpacesSpec(s: string)
    ensures forall k :: 0 <= k < LeadingSpaces(s) ==> IsSpace(s[k])
    ensures LeadingSpaces(s) == |s| || !IsSpace(s[LeadingSpaces(s)])
  {
    if s != [] && IsSpace(s[0]) {
      LeadingSpacesSpec(s[1..]);
      forall k | 0 < k < LeadingSpaces(s) ensures IsSpace(s[k]) { assert s[k] == s[1..][k - 1]; }
    }
  }

  /** `TrailingSpaces` counts the white space after the last other code point. */
  lemma {:induction false} TrailingSpacesSpec(s: string)
    ensures forall k :: |s| - TrailingSpaces(s) <= k < |s| ==> IsSpace(s[k])
    ensures TrailingSpaces(s) == |s| || !IsSpace(s[|s| - TrailingSpaces(s) - 1])
  {
    if s != [] && IsSpace(s[|s| - 1]) {
      TrailingSpacesSpec(s[..|s| - 1]);
      forall k | |s| - TrailingSpaces(s) <= k < |s| - 1 ensures IsSpace(s[k]) { assert s[k] == s[..|s| - 1][k]; }
    }
  }

  function TrimLeft(s: string): string {
    s[LeadingSpaces(s)..]
  }

  function TrimRight(s: string): string {
    s[..|s| - TrailingSpaces(s)]
  }

  /** Go's `strings.TrimSpace`: `s` without its leading and trailing white space. */
  function TrimSpace(s: string): string {
    TrimRight(TrimLeft(s))
  }

  /** `TrimSpace` keeps a middle slice of `s`: only white space is cut on either side,
      and what is kept neither starts nor ends with white space. */
  lemma TrimSpaceSpec(s: string)
    ensures var r := TrimSpace(s);
      var i := LeadingSpaces(s);
      && i + |r| <= |s| && r == s[i..i + |r|]
      && (forall k :: 0 <= k < i ==> IsSpace(s[k]))
      && (forall k :: i + |r| <= k < |s| ==> IsSpace(s[k]))
      && (r == [] || (!IsSpace(r[0]) && !IsSpace(r[|r| - 1])))
  {
    var l := TrimLeft(s);
    var r := TrimRight(l);
    var i := LeadingSpaces(s);
    LeadingSpacesSpec(s);
    TrailingSpacesSpec(l);
    assert r == s[i..i + |r|];
    forall k | i + |r| <= k < |s| ensures IsSpace(s[k]) { assert s[k] == l[k - i]; }
    if r != [] {
      assert r[0] == l[0];
    }
  }

  /** The inverse of `SplitLines`: the pieces joined with newlines. */
  function JoinLines(lines: seq<string>): string
    requires |lines| > 0
  {
    if |lines| == 1 then lines[0] else lines[0] + "\n" + JoinLines(lines[1..])
  }

  /** Go's `strings.Split(s, "\n")`: never empty, one more piece than `s` has newlines. */
  function SplitLines(s: string): (lines: seq<string>)
    ensures |lines| > 0
    ensures forall k :: 0 <= k < |lines| ==> '\n' !in lines[k]
    ensures JoinLines(lines) == s
  {
    if s == [] then [[]]
    else
      var rest := SplitLines(s[1..]);
      if s[0] == '\n' then [[]] + rest
      else [[s[0]] + rest[0]] + rest[1..]
  }

  /** Splitting what was joined gives the newline-free pieces back. */
  lemma {:induction false} SplitJoinLines(lines: seq<string>)
    requires |lines| > 0
    requires forall k :: 0 <= k < |lines| ==> '\n' !in lines[k]
    ensures SplitLines(JoinLines(lines)) == lines
  {
    if |lines| == 1 {
      SplitNoNewline(lines[0]);
    } else {
      SplitJoinLines(lines[1..]);
      SplitPrefix(lines[0], JoinLines(lines[1..]));
      assert lines == [lines[0]] + lines[1..];
    }
  }

  lemma {:induction false} SplitNoNewline(s: string)
    requires '\n' !in s
    ensures SplitLines(s) == [s]
  {
    if s != [] {
      assert '\n' !in s[1..] by {
        forall k | 0 <= k < |s| - 1 ensures s[1..][k] != '\n' { assert s[1..][k] == s[k + 1]; }
      }
      SplitNoNewline(s[1..]);
      assert [s[0]] + s[1..] == s;
    }
  }

  lemma {:induction false} SplitPrefix(a: string, b: string)
    requires '\n' !in a
    ensures SplitLines(a + "\n" + b) == [a] + SplitLines(b)
  {
    if a == [] {
      assert a + "\n" + b == "\n" + b;
      assert ("\n" + b)[1..] == b;
    } else {
      assert (a + "\n" + b)[1..] == a[1..] + "\n" + b;
      assert '\n' !in a[1..] by {
        forall k | 0 <= k < |a| - 1 ensures a[1..][k] != '\n' { assert a[1..][k] == a[k + 1]; }
      }
      SplitPrefix(a[1..], b);
      assert [a[0]] + a[1..] == a;
    }
  }

  /** `sub` occurs in `text` starting at code point `k`. */
  predicate OccursAt(text: string, sub: string, k: int) {
    0 <= k && k + |sub| <= |text| && text[k..k + |sub|] == sub
  }

  function IndexFrom(text: string, sub: string, j: nat): (k: int)
    requires j <= |text|
    ensures k == -1 || (j <= k && OccursAt(text, sub, k))
    ensures forall m :: j <= m && (k == -1 || m < k) ==> !OccursAt(text, sub, m)
    decreases |text| - j
  {
    if j + |sub| > |text| then -1
    else if text[j..j + |sub|] == sub then j
    else IndexFrom(text, sub, j + 1)
  }

  /** Go's `strings.Index`, in code points: the first occurrence of `sub`, or -1. */
  function IndexOf(text: string, sub: string): (k: int)
    ensures k == -1 || OccursAt(text, sub, k)
    ensures forall m :: 0 <= m && (k == -1 || m < k) ==> !OccursAt(text, sub, m)
  {
    IndexFrom(text, sub, 0)
  }

  /** Go's `strings.Index` as the byte offset it returns. */
  function ByteIndex(text: string, sub: string): (b: int)
    ensures b >= -1
    ensures b == -1 <==> IndexOf(text, sub) == -1
  {
    var k := IndexOf(text, sub);
    if k < 0 then -1 else ByteLen(text[..k])
  }

  /** A string is found at its own start. */
  lemma IndexOfSelf(text: string)
    ensures IndexOf(text, text) == 0
  {
    assert OccursAt(text, text, 0);
  }
}
