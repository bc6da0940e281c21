/**
 * helper.go: the word joiner per language, the two punctuation patterns and the
 * punctuation-driven line breaker.
 *
 * The patterns are written out as predicates on code points. `patternCanBreak` is
 * `[。！？，：；]|[.!?,:;] |——|—`; Go's `FindAllStringIndex` reports its leftmost,
 * non-overlapping matches, preferring the earlier alternative at one position, so a
 * double dash is one match of two code points and never two single-dash matches.
 */
module LineBreak {
  import opened Text

  /** Chinese, Japanese and Korean are written without spaces between words. */
  predicate IsCJK(lang: string) {
    lang == "zh" || lang == "ja" || lang == "ko"
  }

  /** `wordSpace`: the joiner placed between two words of language `lang`. */
  function WordSpace(lang: string): (space: string)
    ensures space == "" <==> IsCJK(lang)
    ensures space != "" ==> space == " "
  {
    if IsCJK(lang) then "" else " "
  }

  /** The first character class of `patternMustBreak`: a sentence-final mark. */
  predicate IsSentenceEnd(c: char) {
    c == '。' || c == '！' || c == '？' || c == '.' || c == '!' || c == '?'
  }

  /** `patternMustBreak` = `[。！？.!?] ?$`: a sentence-final mark, then at most one space. */
  predicate MustBreakText(s: string) {
    || (|s| >= 1 && IsSentenceEnd(s[|s| - 1]))
    || (|s| >= 2 && s[|s| - 1] == ' ' && IsSentenceEnd(s[|s| - 2]))
  }

  /** `patternMustBreak` looks at the last two characters only: a sentence mark ends
      a sentence, alone or followed by one space; a text ending with any other
      character, or with two spaces, does not; nor does the empty text. */
  lemma MustBreakTextEnd(s: string, c: char)
    ensures IsSentenceEnd(c) ==> MustBreakText(s + [c]) && MustBreakText(s + [c, ' '])
    ensures !IsSentenceEnd(c) && c != ' ' ==> !MustBreakText(s + [c]) && !MustBreakText(s + [c, ' '])
    ensures !MustBreakText(s + [' ', ' '])
    ensures !MustBreakText([])
  {
    assert (s + [c, ' '])[|s| + 1] == ' ' && (s + [c, ' '])[|s|] == c;
    assert (s + [' ', ' '])[|s| + 1] == ' ' && (s + [' ', ' '])[|s|] == ' ';
  }

  /** Wide punctuation that is a break candidate on its own. */
  predicate IsWideBreak(c: char) {
    c == '。' || c == '！' || c == '？' || c == '，' || c == '：' || c == '；'
  }

  /** Latin punctuation that is a break candidate when a space follows it. */
  predicate IsNarrowBreak(c: char) {
    c == '.' || c == '!' || c == '?' || c == ',' || c == ':' || c == ';'
  }

  /** Length of the `patternCanBreak` match that starts at `p`, or 0 when none does. */
  function MatchAt(s: string, p: nat): (m: nat)
    requires p < |s|
    ensures p + m <= |s| && m <= 2
  {
    if IsWideBreak(s[p]) then 1
    else if IsNarrowBreak(s[p]) && p + 1 < |s| && s[p + 1] == ' ' then 2
    else if s[p] == '—' && p + 1 < |s| && s[p + 1] == '—' then 2
    else if s[p] == '—' then 1
    else 0
  }

  /** The end offsets of `FindAllStringIndex(s[p..], -1)`, as offsets into `s`. */
  function MatchEnds(s: string, p: nat): (ends: seq<nat>)
    requires p <= |s|
    decreases |s| - p
  {
    if p == |s| then []
    else if MatchAt(s, p) == 2 then [p + 2] + MatchEnds(s, p + 2)
    else if MatchAt(s, p) == 1 then [p + 1] + MatchEnds(s, p + 1)
    else MatchEnds(s, p + 1)
  }

  /** Every match found from `p` on ends after `p` and within the text. */
  lemma {:induction false} MatchEndsBound(s: string, p: nat, k: nat)
    requires p <= |s| && k < |MatchEnds(s, p)|
    ensures p < MatchEnds(s, p)[k] <= |s|
    decreases |s| - p
  {
    var m := MatchAt(s, p);
    if m > 0 {
      assert MatchEnds(s, p) == [p + m] + MatchEnds(s, p + m);
      if k > 0 {
        MatchEndsBound(s, p + m, k - 1);
      }
    } else {
      MatchEndsBound(s, p + 1, k);
    }
  }

  /** The matches are reported left to right and never overlap. */
  lemma {:induction false} MatchEndsIncreasing(s: string, p: nat, k: nat, l: nat)
    requires p <= |s| && k < l < |MatchEnds(s, p)|
    ensures MatchEnds(s, p)[k] < MatchEnds(s, p)[l]
    decreases |s| - p
  {
    var m := MatchAt(s, p);
    if m > 0 {
      var rest := MatchEnds(s, p + m);
      assert MatchEnds(s, p) == [p + m] + rest;
      if k > 0 {
        MatchEndsIncreasing(s, p + m, k - 1, l - 1);
      } else {
        MatchEndsBound(s, p + m, l - 1);
      }
    } else {
      MatchEndsIncreasing(s, p + 1, k, l);
    }
  }

  lemma MatchAtShift(s: string, e: nat, q: nat)
    requires e + q < |s|
    ensures MatchAt(s[e..], q) == MatchAt(s, e + q)
  {
    assert s[e..][q] == s[e + q];
    if q + 1 < |s| - e { assert s[e..][q + 1] == s[e + q + 1]; }
  }

  /** Matching the suffix `s[e..]` finds matches of `s` that start at or after `e`. */
  lemma {:induction false} MatchEndsShift(s: string, e: nat, q: nat, x: nat)
    requires e + q <= |s| && x in MatchEnds(s[e..], q)
    ensures x + e in MatchEnds(s, e + q)
    decreases |s| - e - q
  {
    var t := s[e..];
    assert |t| == |s| - e;
    MatchAtShift(s, e, q);
    var m := MatchAt(t, q);
    assert MatchAt(s, e + q) == m;
    if m > 0 {
      var rest := MatchEnds(t, q + m);
      assert MatchEnds(t, q) == [q + m] + rest;
      assert MatchEnds(s, e + q) == [e + q + m] + MatchEnds(s, e + q + m);
      if x != q + m {
        assert x in rest;
        MatchEndsShift(s, e, q + m, x);
      }
    } else {
      assert MatchEnds(t, q) == MatchEnds(t, q + 1);
      assert MatchEnds(s, e + q) == MatchEnds(s, e + q + 1);
      MatchEndsShift(s, e, q + 1, x);
    }
  }

  /** Scanning resumed at a match end finds only matches the whole scan finds. */
  lemma {:induction false} MatchEndsSuffix(s: string, p: nat, e: nat, y: nat)
    requires p <= |s| && e <= |s| && e in MatchEnds(s, p) && y in MatchEnds(s, e)
    ensures y in MatchEnds(s, p)
    decreases |s| - p
  {
    var m := MatchAt(s, p);
    if m > 0 {
      var rest := MatchEnds(s, p + m);
      assert MatchEnds(s, p) == [p + m] + rest;
      if e != p + m {
        assert e in rest;
        MatchEndsSuffix(s, p + m, e, y);
      }
      assert y in rest;
    } else {
      assert MatchEnds(s, p) == MatchEnds(s, p + 1);
      MatchEndsSuffix(s, p + 1, e, y);
    }
  }

  /** The candidate prefix ending at offset `e` fits in `limit` columns. */
  predicate PrefixFits(text: string, e: nat, limit: int) {
    e <= |text| && Width(text[..e]) <= limit
  }

  /** The descending search of helper.go: the largest `i < n` whose candidate prefix
      fits in `limit` columns, or -1 when none does. */
  function RightmostFit(text: string, ends: seq<nat>, limit: int, n: nat): (i: int)
    requires n <= |ends|
    ensures -1 <= i < n
    ensures i >= 0 ==> PrefixFits(text, ends[i], limit)
    ensures forall j :: i < j < n ==> !PrefixFits(text, ends[j], limit)
  {
    if n == 0 then -1
    else if PrefixFits(text, ends[n - 1], limit) then n - 1
    else RightmostFit(text, ends, limit, n - 1)
  }

  /** The lines joined back together. */
  function Concat(lines: seq<string>): string {
    if lines == [] then [] else lines[0] + Concat(lines[1..])
  }

  /** Narrowest first line the breaker accepts without looking further. */
  const MinFirstWidth := 10

  /** Where `breakLineByPunctuation` ends its first line, or -1 when it returns the text
      whole: whole when the text fits or no candidate prefix fits; otherwise at the
      rightmost fitting candidate, or, when that prefix is narrower than ten columns, at
      the next candidate provided at least two candidates follow (whole when fewer do). */
  function FirstCut(text: string, limit: int): (e: int)
    ensures e == -1 || (0 < e < |text| && e in MatchEnds(text, 0))
  {
    if Width(text) <= limit then -1
    else
      var ends := MatchEnds(text, 0);
      var i := RightmostFit(text, ends, limit, |ends|);
      assert text[..|text|] == text;
      if i < 0 then -1
      else if Width(text[..ends[i]]) < MinFirstWidth then
        if i + 1 < |ends| - 1 then
          MatchEndsIncreasing(text, 0, i, i + 1);
          MatchEndsIncreasing(text, 0, i + 1, |ends| - 1);
          MatchEndsBound(text, 0, |ends| - 1);
          ends[i + 1]
        else -1
      else
        MatchEndsBound(text, 0, i);
        ends[i]
  }

  /** `breakLineByPunctuation`: the first line up to `FirstCut`, then the rest broken the
      same way. */
  function BreakLine(text: string, limit: int): (lines: seq<string>)
    ensures |lines| >= 1
    ensures Concat(lines) == text
    ensures text != [] ==> forall k :: 0 <= k < |lines| ==> lines[k] != []
    decreases |text|
  {
    var e := FirstCut(text, limit);
    if e < 0 then [text]
    else
      assert text[..e] + text[e..] == text;
      var rest := BreakLine(text[e..], limit);
      assert forall k :: 0 <= k < |rest| ==> rest[k] != [];
      [text[..e]] + rest
  }

  /** Where line `k` ends: the length of the first `k + 1` lines joined. */
  function CutAfter(lines: seq<string>, k: nat): nat
    requires k < |lines|
  {
    |Concat(lines[..k + 1])|
  }

  lemma ConcatCons(first: string, rest: seq<string>)
    ensures Concat([first] + rest) == first + Concat(rest)
  {
    assert ([first] + rest)[1..] == rest;
  }

  lemma {:induction false} ConcatAppend(a: seq<string>, b: seq<string>)
    ensures Concat(a + b) == Concat(a) + Concat(b)
  {
    if a == [] {
      assert a + b == b;
    } else {
      assert (a + b)[0] == a[0] && (a + b)[1..] == a[1..] + b;
      ConcatAppend(a[1..], b);
    }
  }

  /** A text that fits is its own single line. */
  lemma BreakLineFits(text: string, limit: int)
    requires Width(text) <= limit
    ensures BreakLine(text, limit) == [text]
  {
  }

  /** Every line but the last ends where a break candidate of the input ends. */
  lemma BreakLineCuts(text: string, limit: int)
    ensures var lines := BreakLine(text, limit);
      forall k :: 0 <= k < |lines| - 1 ==> CutAfter(lines, k) in MatchEnds(text, 0)
  {
    var lines := BreakLine(text, limit);
    forall k | 0 <= k < |lines| - 1 ensures CutAfter(lines, k) in MatchEnds(text, 0) {
      BreakLineCutAt(text, limit, k);
    }
  }

  lemma {:induction false} BreakLineCutAt(text: string, limit: int, k: nat)
    requires k < |BreakLine(text, limit)| - 1
    ensures CutAfter(BreakLine(text, limit), k) in MatchEnds(text, 0)
    decreases |text|
  {
    var e := BreakLineSplit(text, limit);
    var rest := BreakLine(text[e..], limit);
    CutAfterCons(text[..e], rest, k);
    if k > 0 {
      BreakLineCutAt(text[e..], limit, k - 1);
      var x := CutAfter(rest, k - 1);
      assert e in MatchEnds(text, 0);
      CutShifted(text, e, x);
      assert CutAfter(BreakLine(text, limit), k) == e + x;
    }
  }

  /** A text broken into several lines is cut first at a break candidate. */
  lemma BreakLineSplit(text: string, limit: int) returns (e: nat)
    requires |BreakLine(text, limit)| > 1
    ensures 0 < e < |text| && e in MatchEnds(text, 0)
    ensures BreakLine(text, limit) == [text[..e]] + BreakLine(text[e..], limit)
  {
    e := FirstCut(text, limit);
  }

  lemma CutAfterCons(first: string, rest: seq<string>, k: nat)
    requires k < |rest| + 1
    ensures CutAfter([first] + rest, k) == |first| + (if k == 0 then 0 else CutAfter(rest, k - 1))
  {
    var lines := [first] + rest;
    assert lines[..k + 1] == [first] + rest[..k];
    ConcatCons(first, rest[..k]);
    if k == 0 { assert rest[..0] == []; }
  }

  lemma CutShifted(text: string, e: nat, x: nat)
    requires e <= |text| && e in MatchEnds(text, 0) && x in MatchEnds(text[e..], 0)
    ensures x + e in MatchEnds(text, 0)
  {
    MatchEndsShift(text, e, 0, x);
    MatchEndsSuffix(text, 0, e, x + e);
  }

  /** The first line when some candidate prefix fits and `i` is the rightmost such
      candidate (so `text[..ends[i]]` is the longest fitting candidate prefix). */
  lemma BreakLineFirstLine(text: string, limit: int, i: nat)
    requires Width(text) > limit
    requires var ends := MatchEnds(text, 0);
      && i < |ends| && PrefixFits(text, ends[i], limit)
      && forall j :: i < j < |ends| ==> !PrefixFits(text, ends[j], limit)
    ensures var ends := MatchEnds(text, 0);
      var lines := BreakLine(text, limit);
      && (Width(text[..ends[i]]) >= MinFirstWidth ==>
            lines == [text[..ends[i]]] + BreakLine(text[ends[i]..], limit))
      && (Width(text[..ends[i]]) < MinFirstWidth && i + 1 < |ends| - 1 ==>
            lines == [text[..ends[i + 1]]] + BreakLine(text[ends[i + 1]..], limit))
      && (Width(text[..ends[i]]) < MinFirstWidth && i + 1 >= |ends| - 1 ==>
            lines == [text])
  {
    var ends := MatchEnds(text, 0);
    assert RightmostFit(text, ends, limit, |ends|) == i;
    if i + 1 < |ends| - 1 {
      MatchEndsIncreasing(text, 0, i + 1, |ends| - 1);
      MatchEndsBound(text, 0, |ends| - 1);
    }
  }

  /** One step of the breaker on a concrete input: when candidate `i` fits, is at least
      ten columns wide, and the next candidate (if any) overflows, the first line ends at
      candidate `i`. */
  lemma BreakLineAt(text: string, limit: int, i: nat)
    requires Width(text) > limit
    requires i < |MatchEnds(text, 0)|
    requires PrefixFits(text, MatchEnds(text, 0)[i], limit)
    requires MinFirstWidth <= Width(text[..MatchEnds(text, 0)[i]])
    requires i + 1 == |MatchEnds(text, 0)| || !PrefixFits(text, MatchEnds(text, 0)[i + 1], limit)
    ensures var e := MatchEnds(text, 0)[i];
      BreakLine(text, limit) == [text[..e]] + BreakLine(text[e..], limit)
  {
    var ends := MatchEnds(text, 0);
    forall j | i < j < |ends| ensures !PrefixFits(text, ends[j], limit) {
      if j > i + 1 {
        MatchEndsIncreasing(text, 0, i + 1, j);
      }
      MatchEndsBound(text, 0, j);
      if ends[i + 1] <= |text| {
        WidthPrefix(text, ends[i + 1], ends[j]);
      }
    }
    BreakLineFirstLine(text, limit, i);
  }

  /** A text with a single break candidate, after at least ten fitting columns and
      before a fitting remainder, is broken into exactly two lines there. */
  lemma BreakLineInTwo(text: string, limit: int, e: nat)
    requires e <= |text| && MatchEnds(text, 0) == [e]
    requires Width(text) > limit
    requires MinFirstWidth <= Width(text[..e]) <= limit && Width(text[e..]) <= limit
    ensures BreakLine(text, limit) == [text[..e], text[e..]]
  {
    BreakLineAt(text, limit, 0);
    BreakLineFits(text[e..], limit);
  }

  /** When no candidate prefix fits, the text is returned whole. */
  lemma BreakLineNoFit(text: string, limit: int)
    requires forall j :: 0 <= j < |MatchEnds(text, 0)| ==> !PrefixFits(text, MatchEnds(text, 0)[j], limit)
    ensures BreakLine(text, limit) == [text]
  {
    var ends := MatchEnds(text, 0);
    assert RightmostFit(text, ends, limit, |ends|) == -1;
  }

  /** A text whose first break candidate already ends past the limit is kept whole,
      however wide it is: later candidates are only wider. */
  lemma BreakLineFirstTooWide(text: string, limit: int)
    requires MatchEnds(text, 0) != [] && !PrefixFits(text, MatchEnds(text, 0)[0], limit)
    ensures BreakLine(text, limit) == [text]
  {
    var ends := MatchEnds(text, 0);
    forall j | 0 <= j < |ends|
      ensures !PrefixFits(text, ends[j], limit)
    {
      MatchEndsBound(text, 0, 0);
      MatchEndsBound(text, 0, j);
      if j > 0 {
        MatchEndsIncreasing(text, 0, 0, j);
        WidthPrefix(text, ends[0], ends[j]);
      }
    }
    BreakLineNoFit(text, limit);
  }

  /** The last line cannot be broken any further. */
  lemma {:induction false} BreakLineLast(text: string, limit: int)
    ensures var lines := BreakLine(text, limit);
      BreakLine(lines[|lines| - 1], limit) == [lines[|lines| - 1]]
    decreases |text|
  {
    var e := FirstCut(text, limit);
    if e >= 0 {
      BreakLineLast(text[e..], limit);
    }
  }
}
