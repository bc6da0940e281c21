/**
 * segment.go: the segment and word records, the sentence-end test on a word, the width
 * test for merging two segments, `mergeWith`, and `genItems`, which turns one segment
 * into timed cues.
 *
 * Times are integer milliseconds. Go keeps segment times as float seconds and cue times
 * as `time.Duration`; the conversions between them are not modelled.
 */
module Segments {
  import opened Wrappers
  import opened Text
  import opened LineBreak

  /** `SingleWord`: a recognised token with its start and end. Score and speaker are
      passed through by every operation and are left out. */
  datatype Word = Word(text: string, start: int, end: int)

  /** `SingleSegment`. A missing translation map and an empty one behave the same in
      every operation, so both are the empty map here. Speaker and character spans are
      left out. */
  datatype Segment = Segment(
    start: int,
    end: int,
    text: string,
    words: seq<Word>,
    translations: map<string, string>)

  /** A subtitle style, known to the engine only by its identifier. */
  datatype Style = Style(id: string)

  /** `SubtitleOption`: one requested language of a subtitle. */
  datatype SubtitleOption = SubtitleOption(
    langCode: string,
    lineBreak: bool,
    maxLineLength: int,
    layer: int,
    style: Option<Style>)

  /** `ResegmentOption`: the merge budget; `maxInterval` is in milliseconds. */
  datatype ResegmentOption = ResegmentOption(
    maxInterval: int,
    maxLineLength: int,
    langCode: string)

  /** One `astisub.Item` as the engine builds it: one line of text, a style, a layer. */
  datatype Cue = Cue(startAt: int, endAt: int, text: string, style: Option<Style>, layer: int)

  /** The segment invariant: its span is that of its words. */
  predicate WellTimed(s: Segment) {
    |s.words| > 0 && s.start == s.words[0].start && s.end == s.words[|s.words| - 1].end
  }

  /** `mustBreak`: the word ends a sentence. */
  predicate MustBreak(w: Word) {
    MustBreakText(w.text)
  }

  /** The word's text is matched as it is, without trimming: a sentence mark followed
      by one space still ends a sentence, one followed by two does not. */
  lemma MustBreakUntrimmed()
    ensures MustBreak(Word("end.", 0, 100)) && MustBreak(Word("end. ", 0, 100))
    ensures !MustBreak(Word("end.  ", 0, 100)) && !MustBreak(Word("end", 0, 100))
  {
    MustBreakTextEnd("end", '.');
    MustBreakTextEnd("end.", ' ');
    assert "end." + [' ', ' '] == "end.  ";
    MustBreakTextEnd("en", 'd');
  }

  /** Reading a Go map: the zero value for a missing key. */
  function Lookup(m: map<string, string>, k: string): string {
    if k in m then m[k] else ""
  }

  /** The translation `mergeWith` stores under key `k`: the receiver's own, the word
      space of language `k`, then the other segment's, trimmed (empty when it has none). */
  function MergedTranslation(k: string, mine: string, theirs: map<string, string>): string {
    mine + WordSpace(k) + TrimSpace(Lookup(theirs, k))
  }

  /** The receiver's translations after `mergeWith`: only its own keys are kept. */
  function MergedTranslations(mine: map<string, string>, theirs: map<string, string>): map<string, string> {
    map k | k in mine :: MergedTranslation(k, mine[k], theirs)
  }

  /** The segment `s.mergeWith(other)` leaves behind. */
  function Merged(s: Segment, other: Segment): Segment
    requires |other.words| > 0
  {
    Segment(
      s.start,
      other.words[|other.words| - 1].end,
      s.text + " " + TrimSpace(other.text),
      s.words + other.words,
      MergedTranslations(s.translations, other.translations))
  }

  /** A map part way through a loop that rewrites every value once: keys still
      `pending` keep their value `v`, the others hold `f(k, v)`. */
  function Rewritten(m: map<string, string>, f: (string, string) -> string, pending: set<string>): map<string, string> {
    map k | k in m :: if k in pending then m[k] else f(k, m[k])
  }

  lemma RewrittenStep(m: map<string, string>, f: (string, string) -> string, pending: set<string>, k: string)
    requires k in pending && k in m
    ensures Rewritten(m, f, pending)[k := f(k, m[k])] == Rewritten(m, f, pending - {k})
  {
  }

  lemma RewrittenAll(mine: map<string, string>, theirs: map<string, string>)
    ensures Rewritten(mine, (k, v) => MergedTranslation(k, v, theirs), {}) == MergedTranslations(mine, theirs)
  {
  }

  /** The translation loop of `mergeWith`: every key of the receiver is extended once. */
  method MergeTranslations(mine: map<string, string>, theirs: map<string, string>) returns (merged: map<string, string>)
    ensures merged == MergedTranslations(mine, theirs)
  {
    var f := (k, v) => MergedTranslation(k, v, theirs);
    merged := mine;
    var pending := mine.Keys;
    assert Rewritten(mine, f, pending) == mine;
    while pending != {}
      invariant pending <= mine.Keys
      invariant merged == Rewritten(mine, f, pending)
      decreases pending
    {
      var k :| k in pending;
      var v := merged[k];
      RewrittenStep(mine, f, pending, k);
      merged := merged[k := v + WordSpace(k) + TrimSpace(Lookup(theirs, k))];
      pending := pending - {k};
    }
    RewrittenAll(mine, theirs);
  }

  /** What the merged map holds: the receiver's keys and no others; languages written
      without spaces are joined directly, all others with one space. */
  lemma MergedTranslationsContents(mine: map<string, string>, theirs: map<string, string>)
    ensures MergedTranslations(mine, theirs).Keys == mine.Keys
    ensures forall k :: k in mine && IsCJK(k) ==>
      MergedTranslations(mine, theirs)[k] == mine[k] + TrimSpace(Lookup(theirs, k))
    ensures forall k :: k in mine && !IsCJK(k) ==>
      MergedTranslations(mine, theirs)[k] == mine[k] + " " + TrimSpace(Lookup(theirs, k))
  {
    forall k | k in mine ensures MergedTranslations(mine, theirs)[k] == mine[k] + WordSpace(k) + TrimSpace(Lookup(theirs, k)) {
    }
    forall k | k in mine && IsCJK(k) ensures MergedTranslations(mine, theirs)[k] == mine[k] + TrimSpace(Lookup(theirs, k)) {
      assert WordSpace(k) == "";
      assert mine[k] + "" == mine[k];
    }
  }

  /** `mergeWith`: `other` appended to `s`. The receiver is updated in place in Go; here
      the updated value is returned. */
  method MergeWith(s: Segment, other: Segment) returns (merged: Segment)
    requires |other.words| > 0
    ensures merged == Merged(s, other)
    ensures merged.start == s.start
    ensures merged.end == other.words[|other.words| - 1].end
    ensures merged.words == s.words + other.words
    ensures merged.text == s.text + " " + TrimSpace(other.text)
    ensures merged.translations == MergedTranslations(s.translations, other.translations)
  {
    var translations := MergeTranslations(s.translations, other.translations);
    var last := other.words[|other.words| - 1];
    merged := Segment(s.start, last.end, s.text + " " + TrimSpace(other.text), s.words + other.words, translations);
  }

  /** Merging keeps the segment invariant: the span is still that of the words. */
  lemma MergedWellTimed(s: Segment, other: Segment)
    requires WellTimed(s) && |other.words| > 0
    ensures WellTimed(Merged(s, other))
    ensures |Merged(s, other).words| == |s.words| + |other.words|
  {
  }

  /** The two texts `allowMerge` measures: the translations into `lang` when `lang` is
      not the source language and both segments have one, the source texts otherwise. */
  function MeasuredTexts(a: Segment, b: Segment, srcLang: string, lang: string): (string, string) {
    if lang != srcLang && lang in a.translations && lang in b.translations
    then (a.translations[lang], b.translations[lang])
    else (a.text, b.text)
  }

  /** `allowMerge`: the two measured texts fit side by side in the width budget. */
  function AllowMerge(a: Segment, b: Segment, srcLang: string, option: ResegmentOption): bool {
    var (t1, t2) := MeasuredTexts(a, b, srcLang, option.langCode);
    Width(t1) + Width(t2) <= option.maxLineLength
  }

  /** What `allowMerge` bounds is the sum of the two widths, not the merged text: the
      joiner `mergeWith` puts between them can take the merged text one column past
      the budget (`MergedOverBudget`). */
  lemma MergedWithinBudget(s: Segment, other: Segment, srcLang: string, option: ResegmentOption)
    requires |other.words| > 0 && AllowMerge(other, s, srcLang, option)
    ensures var lang := option.langCode;
      if lang != srcLang && lang in s.translations && lang in other.translations
      then Width(Merged(s, other).translations[lang]) <= option.maxLineLength + Width(WordSpace(lang))
      else Width(Merged(s, other).text) <= option.maxLineLength + 1
  {
    var lang := option.langCode;
    if lang != srcLang && lang in s.translations && lang in other.translations {
      var t := other.translations[lang];
      assert Merged(s, other).translations[lang] == s.translations[lang] + WordSpace(lang) + TrimSpace(t);
      WidthAppend(s.translations[lang] + WordSpace(lang), TrimSpace(t));
      WidthAppend(s.translations[lang], WordSpace(lang));
      TrimSpaceWidth(t);
    } else {
      WidthAppend(s.text + " ", TrimSpace(other.text));
      WidthAppend(s.text, " ");
      TrimSpaceWidth(other.text);
    }
  }

  /** Two two-column texts pass a budget of four and merge into five columns. */
  lemma MergedOverBudget()
    ensures var s := Segment(0, 500, "ab", [Word("ab", 0, 500)], map[]);
      var other := Segment(600, 900, "cd", [Word("cd", 600, 900)], map[]);
      var option := ResegmentOption(1000, 4, "en");
      && AllowMerge(other, s, "en", option)
      && Merged(s, other).text == "ab cd"
      && Width(Merged(s, other).text) == option.maxLineLength + 1
  {
    assert TrimSpace("cd") == "cd";
    assert Width("ab ") == 3 && Width("cd") == 2;
    WidthAppend("ab ", "cd");
    assert "ab " + "cd" == "ab cd";
  }

  /** The text `genItems` shows: the translation when there is one, else the source. */
  function SelectText(s: Segment, lang: string): string {
    if lang in s.translations then s.translations[lang] else s.text
  }

  /** The lines of the cues: the broken text with line breaking, the whole text without. */
  function CueLines(s: Segment, opt: SubtitleOption): (lines: seq<string>)
    ensures |lines| >= 1
    ensures Concat(lines) == SelectText(s, opt.langCode)
    ensures SelectText(s, opt.langCode) == [] ==> |lines| == 1
    ensures SelectText(s, opt.langCode) != [] ==> forall k :: 0 <= k < |lines| ==> lines[k] != []
  {
    var text := SelectText(s, opt.langCode);
    if opt.lineBreak then BreakLine(text, opt.maxLineLength)
    else
      assert Concat([text]) == text + Concat([]);
      [text]
  }

  /** Byte offset where the first occurrence of `line` in `text` ends: `i + len(line)`. */
  function LineReach(text: string, line: string): nat {
    ByteIndex(text, line) + ByteLen(line)
  }

  /** The instant the program assigns to byte offset `offset` of `text`: the segment end
      from the end of the text on, `Start + (End - Start) * offset / len(text)` before. */
  function TimeAt(s: Segment, text: string, offset: nat): int {
    if offset >= ByteLen(text) then s.end
    else s.start + (s.end - s.start) * offset / ByteLen(text)
  }

  /** The start of cue `k`: the segment start for the first cue; afterwards the end of
      the previous cue, unless that cue ran to the segment end, which leaves the running
      start where it was. */
  function CueStart(s: Segment, text: string, lines: seq<string>, k: nat): int
    requires k <= |lines|
  {
    if k == 0 then s.start
    else if LineReach(text, lines[k - 1]) >= ByteLen(text) then CueStart(s, text, lines, k - 1)
    else TimeAt(s, text, LineReach(text, lines[k - 1]))
  }

  /** Cue `k` for `lines` cut from `text`, its line placed at its first occurrence. */
  function CueAt(s: Segment, text: string, lines: seq<string>, style: Option<Style>, layer: int, k: nat): Cue
    requires k < |lines|
  {
    Cue(CueStart(s, text, lines, k), TimeAt(s, text, LineReach(text, lines[k])), lines[k], style, layer)
  }

  /** The cues for `lines` cut from `text`, each line placed at its first occurrence. */
  function CuesFor(s: Segment, text: string, lines: seq<string>, style: Option<Style>, layer: int): (cues: seq<Cue>)
    ensures |cues| == |lines|
  {
    seq(|lines|, k requires 0 <= k < |lines| => CueAt(s, text, lines, style, layer, k))
  }

  /** The cues `genItems` builds, one per line. */
  function Cues(s: Segment, opt: SubtitleOption): seq<Cue> {
    CuesFor(s, SelectText(s, opt.langCode), CueLines(s, opt), opt.style, opt.layer)
  }

  /** `genItems`: the displayed text, its lines, then one cue per line. */
  method GenItems(s: Segment, opt: SubtitleOption) returns (items: seq<Cue>)
    ensures items == Cues(s, opt)
  {
    var text := SelectText(s, opt.langCode);
    var texts := [text];
    if opt.lineBreak {
      texts := BreakLine(text, opt.maxLineLength);
    }
    assert texts == CueLines(s, opt);
    items := ItemsFor(s, text, texts, opt.style, opt.layer);
  }

  /** The loop of `genItems`, one cue per line. */
  method ItemsFor(s: Segment, text: string, texts: seq<string>, style: Option<Style>, layer: int) returns (items: seq<Cue>)
    ensures items == CuesFor(s, text, texts, style, layer)
  {
    var startAt := s.start;
    items := [];
    for n := 0 to |texts|
      invariant |items| == n
      invariant forall k :: 0 <= k < n ==> items[k] == CueAt(s, text, texts, style, layer, k)
      invariant startAt == CueStart(s, text, texts, n)
    {
      var item;
      item, startAt := NextItem(s, text, texts, style, layer, n, startAt);
      items := items + [item];
    }
  }

  /** One round of the loop of `genItems`: the cue for line `n`, and the running start,
      which moves to the end of a cue that stops short of the end of the text. */
  method NextItem(s: Segment, text: string, texts: seq<string>, style: Option<Style>, layer: int, n: nat, startAt: int)
    returns (item: Cue, nextStart: int)
    requires n < |texts| && startAt == CueStart(s, text, texts, n)
    ensures item == CueAt(s, text, texts, style, layer, n)
    ensures nextStart == CueStart(s, text, texts, n + 1)
  {
    var length := ByteLen(text);
    var line := texts[n];
    var i := ByteIndex(text, line);
    var endAt;
    nextStart := startAt;
    if i + ByteLen(line) >= length {
      endAt := s.end;
    } else {
      nextStart := s.start + (s.end - s.start) * (i + ByteLen(line)) / length;
      endAt := nextStart;
    }
    item := Cue(startAt, endAt, line, style, layer);
  }

  /** The texts of a run of cues. */
  function CueTexts(cues: seq<Cue>): (texts: seq<string>)
    ensures |texts| == |cues|
    ensures forall k :: 0 <= k < |cues| ==> texts[k] == cues[k].text
  {
    seq(|cues|, k requires 0 <= k < |cues| => cues[k].text)
  }

  /** One cue per line: cue `k` holds line `k`, so together the cue texts spell out the
      displayed text; every cue carries the option's style and layer, and the first
      starts with the segment. */
  lemma CuesShape(s: Segment, opt: SubtitleOption)
    ensures var cues := Cues(s, opt);
      && |cues| == |CueLines(s, opt)| >= 1
      && CueTexts(cues) == CueLines(s, opt)
      && Concat(CueTexts(cues)) == SelectText(s, opt.langCode)
      && (forall k :: 0 <= k < |cues| ==> cues[k].style == opt.style && cues[k].layer == opt.layer)
      && cues[0].startAt == s.start
  {
    var lines := CueLines(s, opt);
    assert CueTexts(CuesFor(s, SelectText(s, opt.langCode), lines, opt.style, opt.layer)) == lines;
  }

  /** How cue `k` follows cue `k - 1`: it starts where the previous one ended, unless the
      previous line was found reaching the end of the text; that cue then ends with the
      segment, and the next one starts where it started. */
  lemma CuesChained(s: Segment, opt: SubtitleOption, k: nat)
    requires 0 < k < |Cues(s, opt)|
    ensures var cues := Cues(s, opt);
      var text := SelectText(s, opt.langCode);
      var reach := LineReach(text, CueLines(s, opt)[k - 1]);
      && (reach < ByteLen(text) ==> cues[k].startAt == cues[k - 1].endAt)
      && (reach >= ByteLen(text) ==> cues[k - 1].endAt == s.end && cues[k].startAt == cues[k - 1].startAt)
  {
  }

  /** Without line breaking a segment is one cue spanning the whole segment. */
  lemma CuesUnbroken(s: Segment, opt: SubtitleOption)
    requires !opt.lineBreak
    ensures Cues(s, opt) == [Cue(s.start, s.end, SelectText(s, opt.langCode), opt.style, opt.layer)]
  {
    var text := SelectText(s, opt.langCode);
    assert CueLines(s, opt) == [text];
    IndexOfSelf(text);
    assert text[..0] == [];
    assert LineReach(text, text) == ByteLen(text);
  }

  /** An empty text, broken or not, is one empty cue spanning the whole segment: the
      end test `0 >= 0` holds, so nothing is divided by the zero length. */
  lemma CuesEmpty(s: Segment, opt: SubtitleOption)
    requires SelectText(s, opt.langCode) == ""
    ensures Cues(s, opt) == [Cue(s.start, s.end, "", opt.style, opt.layer)]
  {
    if opt.lineBreak {
      assert MatchEnds("", 0) == [];
      BreakLineNoFit("", opt.maxLineLength);
      assert CueLines(s, opt) == [""];
      IndexOfSelf("");
      assert LineReach("", "") == 0;
    } else {
      CuesUnbroken(s, opt);
    }
  }

  /** Multiplying by a non-negative factor keeps order. */
  lemma MulMono(d: int, x: int, y: int)
    requires 0 <= d && x <= y
    ensures d * x <= d * y
  {
    var z := y - x;
    assert d * y == d * x + d * z;
    assert d * z >= 0;
  }

  /** Dividing by a positive divisor keeps order. */
  lemma DivMono(a: int, b: int, length: int)
    requires 0 <= a <= b && 0 < length
    ensures a / length <= b / length
  {
    var qa, qb := a / length, b / length;
    assert a == length * qa + a % length;
    assert b == length * qb + b % length;
    assert length * (qb + 1) == length * qb + length;
  }

  lemma MulDivCancel(d: int, length: int)
    requires 0 < length
    ensures d * length / length == d
  {
    var q := d * length / length;
    assert d * length == length * q + (d * length) % length;
    assert length * (d + 1) == length * d + length;
    assert length * (q + 1) == length * q + length;
  }

  /** A fraction `offset / length` of `d`, rounded down, lies between 0 and `d`. */
  lemma ScaleBounds(d: int, offset: int, length: int)
    requires 0 <= d && 0 <= offset <= length && 0 < length
    ensures 0 <= d * offset / length <= d
  {
    MulMono(d, 0, offset);
    MulMono(d, offset, length);
    DivMono(0, d * offset, length);
    DivMono(d * offset, d * length, length);
    MulDivCancel(d, length);
  }

  /** Every instant lies within a segment that does not run backwards. */
  lemma TimeAtWithin(s: Segment, text: string, offset: nat)
    requires s.start <= s.end
    ensures s.start <= TimeAt(s, text, offset) <= s.end
  {
    if offset < ByteLen(text) {
      ScaleBounds(s.end - s.start, offset, ByteLen(text));
    }
  }

  /** Later offsets give later instants. */
  lemma TimeAtMono(s: Segment, text: string, a: nat, b: nat)
    requires s.start <= s.end && a <= b
    ensures TimeAt(s, text, a) <= TimeAt(s, text, b)
  {
    TimeAtWithin(s, text, a);
    if b < ByteLen(text) {
      MulMono(s.end - s.start, 0, a);
      MulMono(s.end - s.start, a, b);
      DivMono((s.end - s.start) * a, (s.end - s.start) * b, ByteLen(text));
    }
  }

  lemma {:induction false} CueStartWithin(s: Segment, text: string, lines: seq<string>, k: nat)
    requires s.start <= s.end && k <= |lines|
    ensures s.start <= CueStart(s, text, lines, k) <= s.end
  {
    if k > 0 {
      if LineReach(text, lines[k - 1]) >= ByteLen(text) {
        CueStartWithin(s, text, lines, k - 1);
      } else {
        TimeAtWithin(s, text, LineReach(text, lines[k - 1]));
      }
    }
  }

  /** Every cue starts and ends inside its segment. */
  lemma CuesWithin(s: Segment, opt: SubtitleOption)
    requires s.start <= s.end
    ensures forall c :: c in Cues(s, opt) ==>
      s.start <= c.startAt <= s.end && s.start <= c.endAt <= s.end
  {
    var text := SelectText(s, opt.langCode);
    var lines := CueLines(s, opt);
    var cues := CuesFor(s, text, lines, opt.style, opt.layer);
    forall k | 0 <= k < |lines|
      ensures s.start <= cues[k].startAt <= s.end && s.start <= cues[k].endAt <= s.end
    {
      CueStartWithin(s, text, lines, k);
      TimeAtWithin(s, text, LineReach(text, lines[k]));
    }
  }

  /** Code points before line `k` when the lines are laid end to end. */
  function LineStart(lines: seq<string>, k: nat): nat
    requires k <= |lines|
  {
    |Concat(lines[..k])|
  }

  /** Bytes up to the end of line `k` when the lines are laid end to end. */
  function RunningReach(lines: seq<string>, k: nat): nat
    requires k < |lines|
  {
    ByteLen(Concat(lines[..k + 1]))
  }

  /** The cues for `lines` with each line placed where it sits, after the lines before it. */
  function PlacedCuesFor(s: Segment, text: string, lines: seq<string>, style: Option<Style>, layer: int): (cues: seq<Cue>)
    ensures |cues| == |lines|
  {
    seq(|lines|, k requires 0 <= k < |lines| =>
      Cue(if k == 0 then s.start else TimeAt(s, text, RunningReach(lines, k - 1)),
          TimeAt(s, text, RunningReach(lines, k)), lines[k], style, layer))
  }

  /** The cues of a segment with each line placed by position. */
  function CuesAtOffsets(s: Segment, opt: SubtitleOption): seq<Cue> {
    PlacedCuesFor(s, SelectText(s, opt.langCode), CueLines(s, opt), opt.style, opt.layer)
  }

  lemma PlacedCuesTile(s: Segment, text: string, lines: seq<string>, style: Option<Style>, layer: int)
    requires |lines| >= 1 && Concat(lines) == text
    ensures var cues := PlacedCuesFor(s, text, lines, style, layer);
      && CueTexts(cues) == lines
      && cues[0].startAt == s.start
      && (forall k :: 0 < k < |cues| ==> cues[k].startAt == cues[k - 1].endAt)
      && cues[|cues| - 1].endAt == s.end
  {
    var cues := PlacedCuesFor(s, text, lines, style, layer);
    assert CueTexts(cues) == lines;
    assert lines[..|lines| - 1 + 1] == lines;
    assert RunningReach(lines, |lines| - 1) == ByteLen(text);
  }

  /** Placed by position, the cues tile the segment: the first starts with it, each next
      one starts where the previous ended, and the last ends with it. */
  lemma CuesAtOffsetsTile(s: Segment, opt: SubtitleOption)
    ensures var cues := CuesAtOffsets(s, opt);
      && |cues| >= 1
      && Concat(CueTexts(cues)) == SelectText(s, opt.langCode)
      && cues[0].startAt == s.start
      && (forall k :: 0 < k < |cues| ==> cues[k].startAt == cues[k - 1].endAt)
      && cues[|cues| - 1].endAt == s.end
  {
    PlacedCuesTile(s, SelectText(s, opt.langCode), CueLines(s, opt), opt.style, opt.layer);
  }

  lemma RunningReachMono(lines: seq<string>, k: nat)
    requires 0 < k < |lines|
    ensures RunningReach(lines, k - 1) <= RunningReach(lines, k)
  {
    assert lines[..k + 1] == lines[..k] + [lines[k]];
    ConcatAppend(lines[..k], [lines[k]]);
    ByteLenAppend(Concat(lines[..k]), Concat([lines[k]]));
  }

  /** Placed by position, no cue runs backwards within a segment that does not. */
  lemma CuesAtOffsetsOrdered(s: Segment, opt: SubtitleOption)
    requires s.start <= s.end
    ensures forall c :: c in CuesAtOffsets(s, opt) ==> s.start <= c.startAt <= c.endAt <= s.end
  {
    var text := SelectText(s, opt.langCode);
    var lines := CueLines(s, opt);
    var cues := PlacedCuesFor(s, text, lines, opt.style, opt.layer);
    forall k | 0 <= k < |lines| ensures s.start <= cues[k].startAt <= cues[k].endAt <= s.end {
      TimeAtWithin(s, text, RunningReach(lines, k));
      if k > 0 {
        RunningReachMono(lines, k);
        TimeAtWithin(s, text, RunningReach(lines, k - 1));
        TimeAtMono(s, text, RunningReach(lines, k - 1), RunningReach(lines, k));
      }
    }
  }

  /** Each line's first occurrence in the text is the place it was cut from. */
  predicate FoundInPlace(text: string, lines: seq<string>) {
    forall k :: 0 <= k < |lines| ==> IndexOf(text, lines[k]) == LineStart(lines, k)
  }

  /** The lines before line `k`, joined, are a prefix of the text. */
  lemma BeforeIsPrefix(text: string, lines: seq<string>, k: nat)
    requires Concat(lines) == text && k < |lines|
    ensures LineStart(lines, k) <= |text| && text[..LineStart(lines, k)] == Concat(lines[..k])
  {
    assert lines == lines[..k] + lines[k..];
    ConcatAppend(lines[..k], lines[k..]);
  }

  /** Joining one more line extends the running text by that line. */
  lemma RunningConcat(lines: seq<string>, k: nat)
    requires k < |lines|
    ensures Concat(lines[..k + 1]) == Concat(lines[..k]) + lines[k]
  {
    assert lines[..k + 1] == lines[..k] + [lines[k]];
    ConcatAppend(lines[..k], [lines[k]]);
    assert Concat([lines[k]]) == lines[k] + Concat([]);
  }

  lemma LineReachInPlace(text: string, lines: seq<string>, k: nat)
    requires Concat(lines) == text && k < |lines|
    requires IndexOf(text, lines[k]) == LineStart(lines, k)
    ensures LineReach(text, lines[k]) == RunningReach(lines, k)
  {
    var before := Concat(lines[..k]);
    BeforeIsPrefix(text, lines, k);
    assert ByteIndex(text, lines[k]) == ByteLen(before);
    RunningConcat(lines, k);
    ByteLenAppend(before, lines[k]);
  }

  /** With nonempty lines, every line but the last ends before the text does. */
  lemma ReachBeforeEnd(lines: seq<string>, k: nat)
    requires k + 1 < |lines|
    requires forall j :: 0 <= j < |lines| ==> lines[j] != []
    ensures RunningReach(lines, k) < ByteLen(Concat(lines))
  {
    var after := lines[k + 1..];
    assert lines == lines[..k + 1] + after;
    ConcatAppend(lines[..k + 1], after);
    assert after == [lines[k + 1]] + after[1..];
    ConcatCons(lines[k + 1], after[1..]);
    ByteLenAppend(Concat(lines[..k + 1]), Concat(after));
    ByteLenAppend(lines[k + 1], Concat(after[1..]));
  }

  lemma CueStartInPlace(s: Segment, text: string, lines: seq<string>, k: nat)
    requires Concat(lines) == text && FoundInPlace(text, lines)
    requires forall j :: 0 <= j < |lines| ==> lines[j] != []
    requires 0 < k < |lines|
    ensures CueStart(s, text, lines, k) == TimeAt(s, text, RunningReach(lines, k - 1))
  {
    LineReachInPlace(text, lines, k - 1);
    ReachBeforeEnd(lines, k - 1);
  }

  /** Where every line is first found in its own place, the program's cues are the cues
      placed by position. */
  lemma CuesInPlace(s: Segment, opt: SubtitleOption)
    requires FoundInPlace(SelectText(s, opt.langCode), CueLines(s, opt))
    ensures Cues(s, opt) == CuesAtOffsets(s, opt)
  {
    var text := SelectText(s, opt.langCode);
    var lines := CueLines(s, opt);
    var cues := CuesFor(s, text, lines, opt.style, opt.layer);
    var placed := PlacedCuesFor(s, text, lines, opt.style, opt.layer);
    forall k | 0 <= k < |lines| ensures cues[k] == placed[k] {
      LineReachInPlace(text, lines, k);
      if k > 0 {
        CueStartInPlace(s, text, lines, k);
      }
    }
  }

  /** The second of two cues starts where the first line's occurrence ends (or with
      the segment when that reaches the end) and ends where its own occurrence does. */
  lemma SecondCue(s: Segment, text: string, first: string, second: string, style: Option<Style>, layer: int)
    ensures CuesFor(s, text, [first, second], style, layer)[1] == Cue(
        if LineReach(text, first) >= ByteLen(text) then s.start else TimeAt(s, text, LineReach(text, first)),
        TimeAt(s, text, LineReach(text, second)), second, style, layer)
  {
    var lines := [first, second];
    assert CueStart(s, text, lines, 0) == s.start;
    assert CueStart(s, text, lines, 1)
        == if LineReach(text, first) >= ByteLen(text) then s.start else TimeAt(s, text, LineReach(text, first));
  }

  /** Placed by position, the second of two cues runs from the end of the first line to
      the end of both. */
  lemma SecondPlacedCue(s: Segment, text: string, first: string, second: string, style: Option<Style>, layer: int)
    ensures PlacedCuesFor(s, text, [first, second], style, layer)[1] == Cue(
        TimeAt(s, text, ByteLen(first)), TimeAt(s, text, ByteLen(first + second)), second, style, layer)
  {
    var lines := [first, second];
    assert lines[..1] == [first] && lines[..2] == lines;
    assert [first][1..] == [] && [second][1..] == [] && lines[1..] == [second];
    assert Concat([first]) == first;
    assert Concat([second]) == second;
    assert Concat(lines) == first + second;
  }

  /** The text "aaaaaaaaaa, a" broken at twelve columns: its second line "a" also occurs
      at the start of the text. */
  lemma RepeatedLineBreak()
    ensures BreakLine("aaaaaaaaaa, a", 12) == ["aaaaaaaaaa, ", "a"]
  {
    RepeatedLineEnds();
    RepeatedLineWidth();
    RepeatedLinePieces();
    BreakLineInTwo("aaaaaaaaaa, a", 12, 12);
  }

  lemma RepeatedLineEnds()
    ensures MatchEnds("aaaaaaaaaa, a", 0) == [12]
  {
  }

  lemma RepeatedLineWidth()
    ensures Width("aaaaaaaaaa, a") == 13
  {
  }

  lemma RepeatedFirstWidth()
    ensures Width("aaaaaaaaaa, ") == 12
  {
  }

  lemma RepeatedLinePieces()
    ensures "aaaaaaaaaa, a"[..12] == "aaaaaaaaaa, " && Width("aaaaaaaaaa, ") == 12
    ensures "aaaaaaaaaa, a"[12..] == "a" && Width("a") == 1
    ensures "aaaaaaaaaa, " + "a" == "aaaaaaaaaa, a"
  {
    RepeatedFirstWidth();
  }

  lemma RepeatedTextBytes()
    ensures ByteLen("aaaaaaaaaa, a") == 13
  {
  }

  lemma RepeatedFirstBytes()
    ensures ByteLen("aaaaaaaaaa, ") == 12
  {
  }

  lemma RepeatedLineBytes()
    ensures ByteLen("aaaaaaaaaa, a") == 13 && ByteLen("aaaaaaaaaa, ") == 12
  {
    RepeatedTextBytes();
    RepeatedFirstBytes();
  }

  /** Both lines are first found at the start of the text. */
  lemma RepeatedLineReaches()
    ensures LineReach("aaaaaaaaaa, a", "aaaaaaaaaa, ") == 12
    ensures LineReach("aaaaaaaaaa, a", "a") == 1
  {
    var text := "aaaaaaaaaa, a";
    assert text[0..1] == "a";
    assert IndexFrom(text, "a", 0) == 0;
    assert text[0..12] == "aaaaaaaaaa, ";
    assert IndexFrom(text, "aaaaaaaaaa, ", 0) == 0;
    assert text[..0] == [];
  }

  lemma RepeatedLineSetup(s: Segment, opt: SubtitleOption)
    requires s.text == "aaaaaaaaaa, a" && s.translations == map[]
    requires opt.lineBreak && opt.maxLineLength == 12
    ensures SelectText(s, opt.langCode) == "aaaaaaaaaa, a"
    ensures CueLines(s, opt) == ["aaaaaaaaaa, ", "a"]
  {
    RepeatedLineBreak();
  }

  lemma RepeatedLineTimes(s: Segment)
    requires s.start == 0 && s.end == 13000
    ensures TimeAt(s, "aaaaaaaaaa, a", 1) == 1000
    ensures TimeAt(s, "aaaaaaaaaa, a", 12) == 12000
    ensures TimeAt(s, "aaaaaaaaaa, a", 13) == 13000
  {
    RepeatedLineBytes();
  }

  /** Segment "aaaaaaaaaa, a" over 0 to 13000 ms, broken at twelve columns: the second
      line "a" is located at its first occurrence, the start of the text, so its cue ends
      at 1000 ms although it starts at 12000 ms. */
  lemma RepeatedLineCues(s: Segment, opt: SubtitleOption)
    requires s.start == 0 && s.end == 13000 && s.text == "aaaaaaaaaa, a" && s.translations == map[]
    requires opt.lineBreak && opt.maxLineLength == 12
    ensures |Cues(s, opt)| == 2
    ensures Cues(s, opt)[1] == Cue(12000, 1000, "a", opt.style, opt.layer)
  {
    var text := "aaaaaaaaaa, a";
    RepeatedLineSetup(s, opt);
    assert Cues(s, opt) == CuesFor(s, text, ["aaaaaaaaaa, ", "a"], opt.style, opt.layer);
    SecondCue(s, text, "aaaaaaaaaa, ", "a", opt.style, opt.layer);
    RepeatedLineReaches();
    RepeatedLineBytes();
    RepeatedLineTimes(s);
  }

  /** The same segment with its lines placed by position: the second cue runs from
      12000 ms to the segment end at 13000 ms. */
  lemma RepeatedLineCuesAtOffsets(s: Segment, opt: SubtitleOption)
    requires s.start == 0 && s.end == 13000 && s.text == "aaaaaaaaaa, a" && s.translations == map[]
    requires opt.lineBreak && opt.maxLineLength == 12
    ensures |CuesAtOffsets(s, opt)| == 2
    ensures CuesAtOffsets(s, opt)[1] == Cue(12000, 13000, "a", opt.style, opt.layer)
  {
    var text := "aaaaaaaaaa, a";
    RepeatedLineSetup(s, opt);
    assert CuesAtOffsets(s, opt) == PlacedCuesFor(s, text, ["aaaaaaaaaa, ", "a"], opt.style, opt.layer);
    SecondPlacedCue(s, text, "aaaaaaaaaa, ", "a", opt.style, opt.layer);
    RepeatedLinePieces();
    RepeatedLineBytes();
    RepeatedLineTimes(s);
  }
}
