/**
 * transcript.go (with the error values of aud.go): the transcript object and the
 * operations that rewrite its segment list or read it: the languages it offers,
 * subtitle assembly, splitting a segment at its line breaks, regrouping the recognised
 * words into sentences, merging short neighbours, and filling in translations.
 *
 * Locking is not modelled: every method runs alone on the object.
 */
module Transcripts {
  import opened Wrappers
  import opened Text
  import opened LineBreak
  import opened Segments
  import opened Subtitle
  import opened Regroup
  import opened Translation

  /** The failures the operations report: the error values of aud.go, and the ones
      built on the spot (a word without timing, a translator failure). */
  datatype Error =
    | FormatNotSupported
    | OutOfRange(index: int)
    | LinesNotEqual(lang: string, want: nat, got: nat)
    | LangNotAvailable(lang: string)
    | WordLostTiming(word: string)
    | TranslatorFailed(message: string)

  /** What `astisub.Subtitles` holds that the engine fills: the cues and the styles they
      use, by identifier. */
  datatype Subtitles = Subtitles(items: seq<Cue>, styles: map<string, Style>)

  /** `TranslateOption`: overwrite existing translations, regroup the words first, and
      whether a progress callback is set. */
  datatype TranslateOption = TranslateOption(override: bool, resegmentByWords: bool, callback: bool)

  /** The calls a progress callback receives: `(finished, total)` for every report. */
  function Callbacks(reports: seq<nat>, total: nat): seq<(nat, nat)> {
    seq(|reports|, k requires 0 <= k < |reports| => (reports[k], total))
  }

  /** After a full pass without a failure the callback has received `(j, total)`
      exactly for the segments `j` (counted from 1) that were wanted; after a failure,
      exactly for the wanted segments before the one that failed. */
  lemma CallbacksReported(segs: seq<Segment>, language: string, target: string, override: bool,
                          translate: Translator, j: nat)
    requires 1 <= j <= |segs|
    ensures (j, |segs|) in Callbacks(Translating(segs, language, target, override, translate, |segs|).reports, |segs|)
      <==> Wanted(segs[j - 1], target, override) && Translating(segs, language, target, override, translate, j).failure.None?
  {
    var r := Translating(segs, language, target, override, translate, |segs|).reports;
    var calls := Callbacks(r, |segs|);
    TranslatingReported(segs, language, target, override, translate, |segs|, j);
    if j in r {
      var k :| 0 <= k < |r| && r[k] == j;
      assert calls[k] == (j, |segs|);
    }
    if (j, |segs|) in calls {
      var k :| 0 <= k < |calls| && calls[k] == (j, |segs|);
      assert r[k] == j;
    }
  }

  /** The segments `TranslateWithOption` translates: the regrouped words when asked
      for, the segments otherwise; a word without timing is the error. */
  function TranslationBase(segments: seq<Segment>, wordSegments: seq<Word>, language: string, byWords: bool)
    : Result<seq<Segment>, string>
    requires byWords && FirstLost(wordSegments).None? ==> TailPlaced(wordSegments, language, ByWordsDefaults)
  {
    if byWords then ByWords(wordSegments, language, ByWordsDefaults) else Ok(segments)
  }

  /** The option `TranslateWithOption` regroups with: all defaults. */
  const ByWordsDefaults := ResegmentOption(0, 0, "")

  /** Regrouping purges every translation, so a translation pass after it that does not
      fail leaves each segment with exactly one language, the target, holding the
      translator's answer for its text. */
  lemma TranslatedAfterRegrouping(words: seq<Word>, language: string, target: string, override: bool,
                                  translate: Translator, i: nat)
    requires FirstLost(words).None? && TailPlaced(words, language, ByWordsDefaults)
    requires i < |ByWords(words, language, ByWordsDefaults).value|
    requires Translating(ByWords(words, language, ByWordsDefaults).value, language, target, override, translate,
                         |ByWords(words, language, ByWordsDefaults).value|).failure.None?
    ensures var base := ByWords(words, language, ByWordsDefaults).value;
      var s := Translating(base, language, target, override, translate, |base|).segments[i];
      && s.translations.Keys == {target}
      && translate(base[i].text, language, target) == Ok(s.translations[target])
  {
    var base := ByWords(words, language, ByWordsDefaults).value;
    ByWordsResult(words, language, ByWordsDefaults);
    assert base[i].translations == map[];
    TranslatingDone(base, language, target, override, translate, |base|, i);
    TranslatingKeeps(base, language, target, override, translate, |base|, i);
    var s := Translating(base, language, target, override, translate, |base|).segments[i];
    assert s.translations.Keys - {target} == {};
    assert target in s.translations.Keys;
  }

  /** Concatenation of a sequence of runs, the last run last. */
  function Flat<T>(runs: seq<seq<T>>): seq<T> {
    if runs == [] then [] else Flat(runs[..|runs| - 1]) + runs[|runs| - 1]
  }

  /** Runs that agree with `init` and add one more run flatten to `init`'s runs followed
      by that run. */
  lemma FlatSnoc<T>(runs: seq<seq<T>>, init: seq<seq<T>>)
    requires |runs| == |init| + 1
    requires forall j :: 0 <= j < |init| ==> runs[j] == init[j]
    ensures Flat(runs) == Flat(init) + runs[|init|]
  {
    assert runs[..|init|] == init;
  }

  // ---------------------------------------------------------------------------------
  // Languages and subtitles

  /** The translation languages of the first segment, the ones `AvailableLangs` lists
      before the original. */
  function FirstKeys(segments: seq<Segment>): set<string> {
    if segments == [] then {} else segments[0].translations.Keys
  }

  /** `lang` is one of `AvailableLangs`. */
  predicate Available(segments: seq<Segment>, language: string, lang: string) {
    lang == language || lang in FirstKeys(segments)
  }

  /** The line width used when a line-breaking option leaves it unset. */
  function LineLengthFor(lang: string): int {
    if IsCJK(lang) then DefaultCJKMaxLineLength else DefaultMaxLineLength
  }

  /** A subtitle option with the defaults `GenSubtitle` fills in. */
  function Effective(o: SubtitleOption): SubtitleOption {
    o.(style := if o.style.None? then Some(Style(DefaultStyleId)) else o.style,
       maxLineLength := if o.lineBreak && o.maxLineLength == 0 then LineLengthFor(o.langCode) else o.maxLineLength)
  }

  /** The defaults: a missing style becomes the default style; an unset width becomes 42
      columns for Chinese, Japanese and Korean and 72 for anything else, but only when
      lines are broken; the language, line breaking and layer are kept. Filling in twice
      changes nothing, and a line-breaking option ends with a positive width unless it
      asked for a negative one. */
  lemma EffectiveDefaults(o: SubtitleOption)
    ensures var e := Effective(o);
      && e.langCode == o.langCode && e.lineBreak == o.lineBreak && e.layer == o.layer
      && e.style.Some? && (o.style.Some? ==> e.style == o.style)
      && (o.style.None? ==> e.style.value.id == "Default")
      && (o.lineBreak && o.maxLineLength == 0 && IsCJK(o.langCode) ==> e.maxLineLength == 42)
      && (o.lineBreak && o.maxLineLength == 0 && !IsCJK(o.langCode) ==> e.maxLineLength == 72)
      && (!o.lineBreak || o.maxLineLength != 0 ==> e.maxLineLength == o.maxLineLength)
      && (o.lineBreak && o.maxLineLength >= 0 ==> e.maxLineLength > 0)
      && Effective(e) == e
  {
  }

  /** The cues of a run of segments under one option, segment after segment. */
  function SegmentCues(segments: seq<Segment>, o: SubtitleOption): seq<Cue> {
    if segments == [] then []
    else SegmentCues(segments[..|segments| - 1], o) + Cues(segments[|segments| - 1], o)
  }

  /** What `GenSubtitle` returns for the options `opts`, option by option: the first
      option whose language is not available fails the whole call. */
  function Subtitled(segments: seq<Segment>, language: string, opts: seq<SubtitleOption>): Result<Subtitles, Error> {
    if opts == [] then Ok(Subtitles([], map[]))
    else
      match Subtitled(segments, language, opts[..|opts| - 1])
      case Err(e) => Err(e)
      case Ok(sub) =>
        var o := opts[|opts| - 1];
        if !Available(segments, language, o.langCode) then Err(LangNotAvailable(o.langCode))
        else
          var e := Effective(o);
          Ok(Subtitles(sub.items + SegmentCues(segments, e), sub.styles[e.style.value.id := e.style.value]))
  }

  /** Once a prefix of the options fails, the call fails the same way. */
  lemma {:induction false} SubtitledFailurePersists(segments: seq<Segment>, language: string, opts: seq<SubtitleOption>, n: nat)
    requires n <= |opts| && Subtitled(segments, language, opts[..n]).Err?
    ensures Subtitled(segments, language, opts) == Subtitled(segments, language, opts[..n])
    decreases |opts|
  {
    if n < |opts| {
      assert opts[..|opts| - 1][..n] == opts[..n];
      SubtitledFailurePersists(segments, language, opts[..|opts| - 1], n);
    } else {
      assert opts[..n] == opts;
    }
  }

  /** `GenSubtitle` fails exactly when some option asks for a language that is not
      available, and it names the first such option's language. */
  lemma {:induction false} SubtitledFailure(segments: seq<Segment>, language: string, opts: seq<SubtitleOption>)
    ensures Subtitled(segments, language, opts).Err? <==>
      exists i :: 0 <= i < |opts| && !Available(segments, language, opts[i].langCode)
    ensures Subtitled(segments, language, opts).Err? ==>
      exists i :: 0 <= i < |opts| && !Available(segments, language, opts[i].langCode)
        && (forall j :: 0 <= j < i ==> Available(segments, language, opts[j].langCode))
        && Subtitled(segments, language, opts).error == LangNotAvailable(opts[i].langCode)
    decreases |opts|
  {
    if opts != [] {
      var init := opts[..|opts| - 1];
      SubtitledFailure(segments, language, init);
      assert forall i :: 0 <= i < |init| ==> init[i] == opts[i];
    }
  }

  /** One more available option appends its cues and registers its style. */
  lemma SubtitledStep(segments: seq<Segment>, language: string, opts: seq<SubtitleOption>)
    requires opts != [] && Subtitled(segments, language, opts).Ok?
    ensures var init := Subtitled(segments, language, opts[..|opts| - 1]);
      var e := Effective(opts[|opts| - 1]);
      && init.Ok?
      && Subtitled(segments, language, opts).value.items == init.value.items + SegmentCues(segments, e)
      && Subtitled(segments, language, opts).value.styles == init.value.styles[e.style.value.id := e.style.value]
  {
  }

  /** The cues of every option in turn, one run per option. */
  function OptionRuns(segments: seq<Segment>, opts: seq<SubtitleOption>): seq<seq<Cue>> {
    seq(|opts|, i requires 0 <= i < |opts| => SegmentCues(segments, Effective(opts[i])))
  }

  lemma OptionRunsSnoc(segments: seq<Segment>, opts: seq<SubtitleOption>)
    requires opts != []
    ensures Flat(OptionRuns(segments, opts)) ==
      Flat(OptionRuns(segments, opts[..|opts| - 1])) + SegmentCues(segments, Effective(opts[|opts| - 1]))
  {
    FlatSnoc(OptionRuns(segments, opts), OptionRuns(segments, opts[..|opts| - 1]));
  }

  /** On success the cues are grouped by option in the order of the options, and within
      an option by segment in transcript order. */
  lemma {:induction false} SubtitledItems(segments: seq<Segment>, language: string, opts: seq<SubtitleOption>)
    requires Subtitled(segments, language, opts).Ok?
    ensures Subtitled(segments, language, opts).value.items == Flat(OptionRuns(segments, opts))
    decreases |opts|
  {
    if opts != [] {
      SubtitledStep(segments, language, opts);
      SubtitledItems(segments, language, opts[..|opts| - 1]);
      OptionRunsSnoc(segments, opts);
    }
  }

  /** On success every option's style is registered under its identifier. */
  lemma {:induction false} SubtitledStyles(segments: seq<Segment>, language: string, opts: seq<SubtitleOption>)
    requires Subtitled(segments, language, opts).Ok?
    ensures var styles := Subtitled(segments, language, opts).value.styles;
      && (forall i :: 0 <= i < |opts| ==> Effective(opts[i]).style.value.id in styles)
      && (forall id :: id in styles ==> styles[id].id == id)
    decreases |opts|
  {
    if opts != [] {
      var init := opts[..|opts| - 1];
      SubtitledStep(segments, language, opts);
      SubtitledStyles(segments, language, init);
      assert forall i :: 0 <= i < |init| ==> init[i] == opts[i];
    }
  }

  /** The cues of every segment in turn under one option, one run per segment. */
  function SegmentRuns(segments: seq<Segment>, o: SubtitleOption): seq<seq<Cue>> {
    seq(|segments|, j requires 0 <= j < |segments| => Cues(segments[j], o))
  }

  /** Within one option the cues are those of the segments one after another. */
  lemma {:induction false} SegmentCuesInOrder(segments: seq<Segment>, o: SubtitleOption)
    ensures SegmentCues(segments, o) == Flat(SegmentRuns(segments, o))
    decreases |segments|
  {
    if segments != [] {
      var init := segments[..|segments| - 1];
      SegmentCuesInOrder(init, o);
      FlatSnoc(SegmentRuns(segments, o), SegmentRuns(init, o));
    }
  }

  /** Every cue made under an option carries that option's style and layer. */
  lemma {:induction false} SegmentCuesStyled(segments: seq<Segment>, o: SubtitleOption)
    ensures forall c :: c in SegmentCues(segments, o) ==> c.style == o.style && c.layer == o.layer
    decreases |segments|
  {
    if segments != [] {
      SegmentCuesStyled(segments[..|segments| - 1], o);
      CuesShape(segments[|segments| - 1], o);
    }
  }

  /** The inner loop of `GenSubtitle`: the cues of every segment under one option. */
  method SegmentItems(segments: seq<Segment>, o: SubtitleOption) returns (items: seq<Cue>)
    ensures items == SegmentCues(segments, o)
  {
    items := [];
    for j := 0 to |segments|
      invariant items == SegmentCues(segments[..j], o)
    {
      var cues := GenItems(segments[j], o);
      assert segments[..j + 1][..j] == segments[..j];
      items := items + cues;
    }
    assert segments[..|segments|] == segments;
  }

  // ---------------------------------------------------------------------------------
  // Splitting a segment at its line breaks

  /** The line `SplitSegment` accumulates from words: each word preceded by a space. */
  function Spaced(words: seq<Word>): string {
    if words == [] then "" else Spaced(words[..|words| - 1]) + " " + words[|words| - 1].text
  }

  /** The test of the inner loop: the trimmed line is at least as many bytes long as the
      trimmed text. */
  predicate Reaches(text: string, line: string) {
    ByteLen(TrimSpace(line)) > ByteLen(TrimSpace(text)) - 1
  }

  /** The words from `from` to `e` cover `text`: the line they make reaches it. */
  predicate Covers(text: string, words: seq<Word>, from: nat, e: nat) {
    from <= e <= |words| && Reaches(text, Spaced(words[from..e]))
  }

  /** A test of whether the words from one index to another cover a line of the text. The search for each line's
      words is stated for any such test; `SplitSegment` uses `Covers`. */
  type Test = (string, seq<Word>, nat, nat) -> bool

  /** The first `e > j` such that `words[from..e]` cover `text`, or -1. */
  function CoverEnd(covers: Test, text: string, words: seq<Word>, from: nat, j: nat): (e: int)
    requires from <= j <= |words|
    ensures e == -1 || j < e <= |words|
    decreases |words| - j
  {
    if j == |words| then -1
    else if covers(text, words, from, j + 1) then j + 1
    else CoverEnd(covers, text, words, from, j + 1)
  }

  /** `CoverEnd` finds the first covering end after `j`. */
  lemma {:induction false} CoverEndSpec(covers: Test, text: string, words: seq<Word>, from: nat, j: nat)
    requires from <= j <= |words|
    ensures var e := CoverEnd(covers, text, words, from, j);
      && (e == -1 || covers(text, words, from, e))
      && forall m :: j < m <= |words| && (e == -1 || m < e) ==> !covers(text, words, from, m)
    decreases |words| - j
  {
    if j < |words| && !covers(text, words, from, j + 1) {
      CoverEndSpec(covers, text, words, from, j + 1);
    }
  }

  /** One past the last word line `text` takes when its search starts at word `from`:
      the first point where the words cover the line, or the end of the words. */
  function LineEnd(covers: Test, text: string, words: seq<Word>, from: nat): (e: nat)
    requires from <= |words|
    ensures from <= e <= |words| && (from < |words| ==> from < e)
  {
    var e := CoverEnd(covers, text, words, from, from);
    if e == -1 then |words| else e
  }

  /** Where the search for the next line starts: after the words taken when they covered
      the line, at the same word when they did not. */
  function NextIndex(covers: Test, text: string, words: seq<Word>, from: nat): (next: nat)
    requires from <= |words|
    ensures next <= |words|
  {
    var e := CoverEnd(covers, text, words, from, from);
    if e == -1 then from else e
  }

  /** A line takes words only until they first cover it; when they do, the next line's
      search resumes after them, and when they never do, the line takes all remaining
      words and the next line's search starts again at the same word. */
  lemma LineEndSpec(covers: Test, text: string, words: seq<Word>, from: nat)
    requires from <= |words|
    ensures var e := LineEnd(covers, text, words, from);
      && (covers(text, words, from, e) ==> NextIndex(covers, text, words, from) == e)
      && (!covers(text, words, from, e) ==> NextIndex(covers, text, words, from) == from && e == |words|)
      && forall m :: from < m < e ==> !covers(text, words, from, m)
  {
    CoverEndSpec(covers, text, words, from, from);
  }

  /** No line finds the words exhausted when it starts (the program indexes the next
      word without checking). */
  predicate Splittable(covers: Test, texts: seq<string>, words: seq<Word>, i: nat, from: nat)
    requires from <= |words|
    decreases |texts| - i
  {
    i >= |texts| || (from < |words| && Splittable(covers, texts, words, i + 1, NextIndex(covers, texts[i], words, from)))
  }

  /** The words lines `i` onwards take, as index ranges into `words`, the search
      starting at word `from`. */
  function Cuts(covers: Test, texts: seq<string>, words: seq<Word>, i: nat, from: nat): (cuts: seq<(nat, nat)>)
    requires from <= |words| && Splittable(covers, texts, words, i, from)
    ensures |cuts| == if i < |texts| then |texts| - i else 0
    ensures forall k :: 0 <= k < |cuts| ==> cuts[k].0 < cuts[k].1 <= |words|
    ensures |cuts| > 0 ==> cuts[0].0 == from
    decreases |texts| - i
  {
    if i >= |texts| then []
    else [(from, LineEnd(covers, texts[i], words, from))] + Cuts(covers, texts, words, i + 1, NextIndex(covers, texts[i], words, from))
  }

  /** Range `k` is the one line `i + k`'s search finds, and the next search starts where
      that one left off. */
  lemma {:induction false} CutAt(covers: Test, texts: seq<string>, words: seq<Word>, i: nat, from: nat, k: nat)
    requires from <= |words| && Splittable(covers, texts, words, i, from)
    requires i + k < |texts|
    ensures var cuts := Cuts(covers, texts, words, i, from);
      && cuts[k].1 == LineEnd(covers, texts[i + k], words, cuts[k].0)
      && (i + k + 1 < |texts| ==> cuts[k + 1].0 == NextIndex(covers, texts[i + k], words, cuts[k].0))
    decreases k
  {
    if k > 0 {
      var next := NextIndex(covers, texts[i], words, from);
      CutAt(covers, texts, words, i + 1, next, k - 1);
      var cuts := Cuts(covers, texts, words, i, from);
      var rest := Cuts(covers, texts, words, i + 1, next);
      assert cuts[k] == rest[k - 1];
      assert i + k + 1 < |texts| ==> cuts[k + 1] == rest[k];
    }
  }

  /** The search ends at the first covering end, and runs to the end of the words when
      none covers. */
  lemma FirstCover(covers: Test, text: string, words: seq<Word>, from: nat, e: nat)
    requires from < e <= |words|
    requires forall m :: from < m < e ==> !covers(text, words, from, m)
    ensures covers(text, words, from, e) ==>
      LineEnd(covers, text, words, from) == e && NextIndex(covers, text, words, from) == e
    ensures e == |words| && !covers(text, words, from, e) ==>
      LineEnd(covers, text, words, from) == e && NextIndex(covers, text, words, from) == from
  {
    CoverEndSpec(covers, text, words, from, from);
  }

  /** Every line from `i` on is covered by the words it takes. */
  predicate AllCovered(covers: Test, texts: seq<string>, words: seq<Word>, i: nat, from: nat)
    requires from <= |words| && Splittable(covers, texts, words, i, from)
    decreases |texts| - i
  {
    i >= |texts| ||
      (covers(texts[i], words, from, LineEnd(covers, texts[i], words, from))
        && AllCovered(covers, texts, words, i + 1, NextIndex(covers, texts[i], words, from)))
  }

  /** When every line is covered by the words it takes, each range starts where the
      previous one ends. */
  lemma {:induction false} CutsContiguous(covers: Test, texts: seq<string>, words: seq<Word>, i: nat, from: nat, k: nat)
    requires from <= |words| && Splittable(covers, texts, words, i, from)
    requires AllCovered(covers, texts, words, i, from)
    requires i + k + 1 < |texts|
    ensures var cuts := Cuts(covers, texts, words, i, from);
      cuts[k].1 == cuts[k + 1].0
    decreases k
  {
    var next := NextIndex(covers, texts[i], words, from);
    if k == 0 {
      LineEndSpec(covers, texts[i], words, from);
    } else {
      CutsContiguous(covers, texts, words, i + 1, next, k - 1);
      assert Cuts(covers, texts, words, i, from)[1..] == Cuts(covers, texts, words, i + 1, next);
    }
  }

  /** Line `i` of each translation. */
  function LineTranslations(split: map<string, seq<string>>, i: nat): map<string, string>
    requires forall k :: k in split ==> i < |split[k]|
  {
    map k | k in split :: split[k][i]
  }

  /** The segment made for one line: the line, its translations and the words in
      `cut`, timed from the first of them to the last. */
  function Piece(text: string, words: seq<Word>, cut: (nat, nat), translations: map<string, string>): (s: Segment)
    requires cut.0 < cut.1 <= |words|
    ensures WellTimed(s)
  {
    Segment(words[cut.0].start, words[cut.1 - 1].end, text, words[cut.0..cut.1], translations)
  }

  /** Every translation has as many lines as the text. */
  predicate LinesMatch(s: Segment) {
    forall k :: k in s.translations ==> |SplitLines(s.translations[k])| == |SplitLines(s.text)|
  }

  /** The translations, each split into lines. */
  function SplitAll(translations: map<string, string>): map<string, seq<string>> {
    map k | k in translations :: SplitLines(translations[k])
  }

  /** The segment can be split without running out of words. */
  predicate CanSplit(covers: Test, s: Segment) {
    Splittable(covers, SplitLines(s.text), s.words, 0, 0)
  }

  /** The segment `SplitSegment` makes for line `i` of `s`: the line, line `i` of every
      translation and the words the line's search takes. */
  function PieceAt(covers: Test, s: Segment, i: nat): Segment
    requires LinesMatch(s) && CanSplit(covers, s) && i < |SplitLines(s.text)|
  {
    var texts := SplitLines(s.text);
    Piece(texts[i], s.words, Cuts(covers, texts, s.words, 0, 0)[i], LineTranslations(SplitAll(s.translations), i))
  }

  /** The segments `SplitSegment` puts in place of `s`, one per line. */
  function SplitOf(covers: Test, s: Segment): (pieces: seq<Segment>)
    requires LinesMatch(s) && CanSplit(covers, s)
    ensures |pieces| == |SplitLines(s.text)|
  {
    seq(|SplitLines(s.text)|, i requires 0 <= i < |SplitLines(s.text)| => PieceAt(covers, s, i))
  }

  /** What splitting promises: one segment per line of the text, in order, holding that
      line (so the lines joined with newlines give the text back), line `i` of every
      translation (so each translation is rebuilt the same way) and the span of the words
      it took; the first segment starts with the first word. */
  lemma SplitShape(covers: Test, s: Segment)
    requires LinesMatch(s) && CanSplit(covers, s)
    ensures var pieces := SplitOf(covers, s);
      && JoinLines(seq(|pieces|, i requires 0 <= i < |pieces| => pieces[i].text)) == s.text
      && (forall i :: 0 <= i < |pieces| ==> WellTimed(pieces[i]) && pieces[i].translations.Keys == s.translations.Keys)
      && (forall k :: k in s.translations ==>
            JoinLines(seq(|pieces|, i requires 0 <= i < |pieces| => pieces[i].translations[k])) == s.translations[k])
      && pieces[0].words[0] == s.words[0]
  {
    var texts := SplitLines(s.text);
    var split := SplitAll(s.translations);
    var pieces := SplitOf(covers, s);
    assert seq(|pieces|, i requires 0 <= i < |pieces| => pieces[i].text) == texts;
    forall k | k in s.translations
      ensures JoinLines(seq(|pieces|, i requires 0 <= i < |pieces| => pieces[i].translations[k])) == s.translations[k]
    {
      assert seq(|pieces|, i requires 0 <= i < |pieces| => pieces[i].translations[k]) == split[k];
    }
  }

  /** Segments taking contiguous ranges of `words`, together, hold the words from the
      start of the first range to the end of the last, each once and in order. */
  lemma {:induction false} ContiguousWords(words: seq<Word>, cuts: seq<(nat, nat)>, pieces: seq<Segment>, n: nat)
    requires 0 < n <= |cuts| == |pieces|
    requires forall k :: 0 <= k < |cuts| ==> cuts[k].0 < cuts[k].1 <= |words|
    requires forall k :: 0 <= k < |cuts| ==> pieces[k].words == words[cuts[k].0..cuts[k].1]
    requires forall k :: 0 <= k < |cuts| - 1 ==> cuts[k].1 == cuts[k + 1].0
    ensures cuts[0].0 < cuts[n - 1].1
    ensures AllWords(pieces[..n]) == words[cuts[0].0..cuts[n - 1].1]
  {
    if n == 1 {
      assert pieces[..1][..0] == [];
    } else {
      ContiguousWords(words, cuts, pieces, n - 1);
      assert pieces[..n][..n - 1] == pieces[..n - 1];
      assert words[cuts[0].0..cuts[n - 1].1] == words[cuts[0].0..cuts[n - 2].1] + words[cuts[n - 1].0..cuts[n - 1].1];
    }
  }

  /** When every line is covered by the words it takes, the split segments hold a
      prefix of the segment's words, each word once and in order. */
  lemma SplitConsumes(covers: Test, s: Segment)
    requires LinesMatch(s) && CanSplit(covers, s)
    requires AllCovered(covers, SplitLines(s.text), s.words, 0, 0)
    ensures AllWords(SplitOf(covers, s)) <= s.words
  {
    var texts := SplitLines(s.text);
    var cuts := Cuts(covers, texts, s.words, 0, 0);
    var pieces := SplitOf(covers, s);
    forall k | 0 <= k < |cuts| - 1
      ensures cuts[k].1 == cuts[k + 1].0
    {
      CutsContiguous(covers, texts, s.words, 0, 0, k);
    }
    ContiguousWords(s.words, cuts, pieces, |pieces|);
    assert pieces[..|pieces|] == pieces;
  }

  /** The inner loop of `SplitSegment`: words are taken one by one until they cover the
      text (with `Covers`: until the line made of them, each after a space, reaches it). */
  method ConsumeLine(covers: Test, text: string, words: seq<Word>, from: nat) returns (taken: seq<Word>, next: nat)
    requires from <= |words|
    ensures taken == words[from..LineEnd(covers, text, words, from)]
    ensures next == NextIndex(covers, text, words, from)
  {
    taken := [];
    next := from;
    for j := from to |words|
      invariant taken == words[from..j]
      invariant CoverEnd(covers, text, words, from, from) == CoverEnd(covers, text, words, from, j)
    {
      assert words[from..j + 1] == taken + [words[j]];
      taken := taken + [words[j]];
      if covers(text, words, from, j + 1) {
        next := j + 1;
        return;
      }
    }
  }

  /** The check loop of `SplitSegment`: each translation split into lines, stopping at
      the first one (in the map's unspecified order) whose line count is not `want`. */
  method SplitTranslations(translations: map<string, string>, want: nat) returns (split: map<string, seq<string>>, bad: Option<string>)
    ensures bad.None? <==> forall k :: k in translations ==> |SplitLines(translations[k])| == want
    ensures bad.Some? ==>
      && bad.value in translations && bad.value in split
      && split[bad.value] == SplitLines(translations[bad.value]) && |split[bad.value]| != want
    ensures bad.None? ==> split == SplitAll(translations)
  {
    split := map[];
    var pending := translations.Keys;
    while pending != {}
      invariant pending <= translations.Keys
      invariant split.Keys == translations.Keys - pending
      invariant forall k :: k in split ==> split[k] == SplitLines(translations[k]) && |split[k]| == want
      decreases pending
    {
      var k :| k in pending;
      split := split[k := SplitLines(translations[k])];
      if |split[k]| != want {
        return split, Some(k);
      }
      pending := pending - {k};
    }
    bad := None;
    assert split == SplitAll(translations) by {
      assert split.Keys == SplitAll(translations).Keys;
    }
  }

  /** The translation loop of `SplitSegment`: line `i` of every translation. */
  method CopyLine(split: map<string, seq<string>>, i: nat) returns (line: map<string, string>)
    requires forall k :: k in split ==> i < |split[k]|
    ensures line == LineTranslations(split, i)
  {
    line := map[];
    var pending := split.Keys;
    while pending != {}
      invariant pending <= split.Keys
      invariant line.Keys == split.Keys - pending
      invariant forall k :: k in line ==> line[k] == split[k][i]
      decreases pending
    {
      var k :| k in pending;
      line := line[k := split[k][i]];
      pending := pending - {k};
    }
    assert line.Keys == LineTranslations(split, i).Keys;
  }

  /** A prefix one element longer is the prefix followed by that element. */
  lemma TakeNext<T>(s: seq<T>, i: nat)
    requires i < |s|
    ensures s[..i + 1] == s[..i] + [s[i]]
  {
  }

  /** One round of the main loop of `SplitSegment`: the segment for line `i`, its words
      found by the search starting at `wordIndex`, and where the next search starts. */
  method SplitLine(covers: Test, s: Segment, split: map<string, seq<string>>, i: nat, wordIndex: nat)
    returns (piece: Segment, next: nat)
    requires LinesMatch(s) && CanSplit(covers, s) && split == SplitAll(s.translations)
    requires i < |SplitLines(s.text)| && wordIndex == Cuts(covers, SplitLines(s.text), s.words, 0, 0)[i].0
    ensures piece == PieceAt(covers, s, i)
    ensures i + 1 < |SplitLines(s.text)| ==> next == Cuts(covers, SplitLines(s.text), s.words, 0, 0)[i + 1].0
  {
    var texts := SplitLines(s.text);
    var words := s.words;
    ghost var cuts := Cuts(covers, texts, words, 0, 0);
    CutAt(covers, texts, words, 0, 0, i);
    var start := words[wordIndex].start;
    var taken;
    taken, next := ConsumeLine(covers, texts[i], words, wordIndex);
    assert taken == words[cuts[i].0..cuts[i].1];
    var end := taken[|taken| - 1].end;
    assert end == words[cuts[i].1 - 1].end;
    var translations := CopyLine(split, i);
    piece := Segment(start, end, texts[i], taken, translations);
  }

  /** The main loop of `SplitSegment`: one segment per line. */
  method SplitLinesOf(covers: Test, s: Segment, split: map<string, seq<string>>) returns (newSegments: seq<Segment>)
    requires LinesMatch(s) && CanSplit(covers, s) && split == SplitAll(s.translations)
    ensures newSegments == SplitOf(covers, s)
  {
    var texts := SplitLines(s.text);
    newSegments := [];
    var wordIndex := 0;
    ghost var cuts := Cuts(covers, texts, s.words, 0, 0);
    ghost var pieces := SplitOf(covers, s);
    for i := 0 to |texts|
      invariant newSegments == pieces[..i]
      invariant i < |texts| ==> wordIndex == cuts[i].0
    {
      var piece;
      piece, wordIndex := SplitLine(covers, s, split, i, wordIndex);
      TakeNext(pieces, i);
      newSegments := newSegments + [piece];
    }
  }

  // ---------------------------------------------------------------------------------
  // The transcript object

  class Transcript {
    var segments: seq<Segment>
    var wordSegments: seq<Word>
    var language: string

    constructor(segments: seq<Segment>, wordSegments: seq<Word>, language: string)
      ensures this.segments == segments && this.wordSegments == wordSegments && this.language == language
    {
      this.segments := segments;
      this.wordSegments := wordSegments;
      this.language := language;
    }

    /** The shape a decoded WhisperX transcript must have (aud.go): a language, some
        segments and some words. */
    predicate Loaded()
      reads this
    {
      language != "" && |segments| > 0 && |wordSegments| > 0
    }

    /** `AvailableLangs`: the first segment's translation languages, each once and in
        the map's (unspecified) order, then the original language. */
    method AvailableLangs() returns (langs: seq<string>)
      ensures |langs| == |FirstKeys(segments)| + 1
      ensures langs[|langs| - 1] == language
      ensures forall l :: l in langs[..|langs| - 1] <==> l in FirstKeys(segments)
      ensures forall i, j :: 0 <= i < j < |langs| - 1 ==> langs[i] != langs[j]
      ensures forall l :: l in langs <==> Available(segments, language, l)
    {
      langs := [];
      if |segments| > 0 {
        var pending := segments[0].translations.Keys;
        while pending != {}
          invariant pending <= FirstKeys(segments)
          invariant forall l :: l in langs <==> l in FirstKeys(segments) && l !in pending
          invariant forall i, j :: 0 <= i < j < |langs| ==> langs[i] != langs[j]
          invariant |langs| + |pending| == |FirstKeys(segments)|
          decreases |pending|
        {
          var lang :| lang in pending;
          if lang !in langs {
            langs := langs + [lang];
          }
          pending := pending - {lang};
        }
      }
      langs := langs + [language];
      assert langs[..|langs| - 1] == langs[..|langs| - 1];
    }

    /** `GenSubtitle` without gap optimisation: every requested language in turn, each
        segment's cues under that language's option with its defaults filled in. */
    method GenSubtitle(langs: seq<SubtitleOption>) returns (r: Result<Subtitles, Error>)
      ensures r == Subtitled(segments, language, langs)
    {
      var items: seq<Cue> := [];
      var styles: map<string, Style> := map[];
      for i := 0 to |langs|
        invariant Subtitled(segments, language, langs[..i]) == Ok(Subtitles(items, styles))
      {
        var available := AvailableLangs();
        var lang := langs[i];
        assert langs[..i + 1][..i] == langs[..i];
        if lang.langCode !in available {
          SubtitledFailurePersists(segments, language, langs, i + 1);
          return Err(LangNotAvailable(lang.langCode));
        }
        if lang.style.None? {
          lang := lang.(style := Some(Style(DefaultStyleId)));
        }
        styles := styles[lang.style.value.id := lang.style.value];
        if lang.lineBreak && lang.maxLineLength == 0 {
          if lang.langCode == "zh" || lang.langCode == "ko" || lang.langCode == "ja" {
            lang := lang.(maxLineLength := DefaultCJKMaxLineLength);
          } else {
            lang := lang.(maxLineLength := DefaultMaxLineLength);
          }
        }
        assert lang == Effective(langs[i]);
        var cues := SegmentItems(segments, lang);
        assert Subtitled(segments, language, langs[..i + 1]) == Ok(Subtitles(items + cues, styles)) by {
          assert langs[..i + 1][i] == langs[i];
        }
        items := items + cues;
      }
      assert langs[..|langs|] == langs;
      r := Ok(Subtitles(items, styles));
    }

    /** `SplitSegment`: segment `index` is replaced by one segment per line of its text.
        An index out of range and a translation whose line count differs from the text's
        are reported, and then nothing changes. The program indexes the words without
        checking, so a caller must not ask for a split that runs out of words. */
    method SplitSegment(index: int) returns (err: Option<Error>)
      modifies this
      requires 0 <= index < |segments| && LinesMatch(segments[index]) ==> CanSplit(Covers, segments[index])
      ensures wordSegments == old(wordSegments) && language == old(language)
      ensures !(0 <= index < |old(segments)|) ==> err == Some(OutOfRange(index)) && segments == old(segments)
      ensures 0 <= index < |old(segments)| && !LinesMatch(old(segments)[index]) ==>
        var s := old(segments)[index];
        && segments == old(segments)
        && err.Some? && err.value.LinesNotEqual?
        && err.value.lang in s.translations
        && err.value.want == |SplitLines(s.text)|
        && err.value.got == |SplitLines(s.translations[err.value.lang])| != err.value.want
      ensures 0 <= index < |old(segments)| && LinesMatch(old(segments)[index]) ==>
        && err == None
        && segments == old(segments)[..index] + SplitOf(Covers, old(segments)[index]) + old(segments)[index + 1..]
    {
      if index < 0 || index >= |segments| {
        return Some(OutOfRange(index));
      }
      var s := segments[index];
      var texts := SplitLines(s.text);
      var split, bad := SplitTranslations(s.translations, |texts|);
      if bad.Some? {
        return Some(LinesNotEqual(bad.value, |texts|, |split[bad.value]|));
      }
      assert split == SplitAll(s.translations);
      var newSegments := SplitLinesOf(Covers, s, split);
      segments := segments[..index] + newSegments + segments[index + 1..];
      err := None;
    }

    /** `resegmentByWords`: the segments are rebuilt from the recognised words, always in
        the transcript's language. A word without timing is reported and then nothing
        changes. The program reads the last segment kept without checking, so a caller
        must not ask for it when a trailing group would find none. */
    method ResegmentByWords(opt: ResegmentOption) returns (err: Option<Error>)
      modifies this
      requires FirstLost(wordSegments).None? ==> TailPlaced(wordSegments, language, opt)
      ensures wordSegments == old(wordSegments) && language == old(language)
      ensures var r := ByWords(old(wordSegments), old(language), opt);
        && (r.Err? ==> err == Some(WordLostTiming(r.error)) && segments == old(segments))
        && (r.Ok? ==> err == None && segments == r.value)
    {
      var r := RegroupWords(wordSegments, language, opt);
      if r.Err? {
        return Some(WordLostTiming(r.error));
      }
      segments := r.value;
      err := None;
    }

    /** `Resegment`: neighbouring segments that are close and short enough are merged.
        The option's blanks are given their defaults, which the caller sees. The program
        reads the words of a segment it merges without checking, so a caller must not
        ask for a merge of a segment without words. */
    method Resegment(option: ResegmentOption) returns (effective: ResegmentOption, result: seq<Segment>)
      modifies this
      requires CanRegroup(segments, language, ResegmentOptionFor(option, language))
      ensures effective == ResegmentOptionFor(option, old(language))
      ensures result == Regrouped(old(segments), old(language), effective) && segments == result
      ensures wordSegments == old(wordSegments) && language == old(language)
    {
      effective := option;
      if effective.langCode == "" {
        effective := effective.(langCode := language);
      }
      if effective.maxInterval == 0 {
        effective := effective.(maxInterval := DefaultMaxInterval);
      }
      if effective.maxLineLength == 0 {
        if effective.langCode == "zh" || effective.langCode == "ko" || effective.langCode == "ja" {
          effective := effective.(maxLineLength := DefaultCJKMaxLineLength);
        } else {
          effective := effective.(maxLineLength := DefaultMaxLineLength);
        }
      }
      result := MergeShort(segments, language, effective);
      segments := result;
    }

    /** `TranslateWithOption`: nothing to do into the transcript's own language;
        otherwise the words are regrouped first when asked, and every wanted segment is
        translated in order until the translator fails. The segments translated before a
        failure keep their translations, and the callback has been told about each. */
    method TranslateWithOption(translate: Translator, target: string, option: TranslateOption)
      returns (err: Option<Error>, progress: seq<(nat, nat)>)
      modifies this
      requires target != language && option.resegmentByWords && FirstLost(wordSegments).None? ==>
        TailPlaced(wordSegments, language, ByWordsDefaults)
      ensures wordSegments == old(wordSegments) && language == old(language)
      ensures target == old(language) ==> err == None && progress == [] && segments == old(segments)
      ensures target != old(language) ==>
        var base := TranslationBase(old(segments), old(wordSegments), old(language), option.resegmentByWords);
        && (base.Err? ==> err == Some(WordLostTiming(base.error)) && progress == [] && segments == old(segments))
        && (base.Ok? ==>
          var p := Translating(base.value, language, target, option.override, translate, |base.value|);
          && segments == p.segments
          && err == (if p.failure.Some? then Some(TranslatorFailed(p.failure.value)) else None)
          && progress == (if option.callback then Callbacks(p.reports, |base.value|) else []))
    {
      progress := [];
      if target == language {
        return None, progress;
      }
      if option.resegmentByWords {
        err := ResegmentByWords(ByWordsDefaults);
        if err.Some? {
          return err, progress;
        }
      }
      var total := |segments|;
      var p := TranslateAll(segments, language, target, option.override, translate);
      segments := p.segments;
      if option.callback {
        progress := Callbacks(p.reports, total);
      }
      if p.failure.Some? {
        return Some(TranslatorFailed(p.failure.value)), progress;
      }
      err := None;
    }
  }

  /** `ReadTranscript` once the JSON is decoded into its three fields: a transcript
      without a language, segments or word segments is refused as a format the
      program does not support; any other is taken as it is. */
  method ReadTranscript(language: string, segments: seq<Segment>, wordSegments: seq<Word>)
    returns (r: Result<Transcript, Error>)
    ensures r.Err? <==> language == "" || |segments| == 0 || |wordSegments| == 0
    ensures r.Err? ==> r.error == FormatNotSupported
    ensures r.Ok? ==> fresh(r.value) && r.value.Loaded()
    ensures r.Ok? ==> r.value.language == language && r.value.segments == segments && r.value.wordSegments == wordSegments
  {
    if language == "" || |segments| == 0 || |wordSegments| == 0 {
      return Err(FormatNotSupported);
    }
    var t := new Transcript(segments, wordSegments, language);
    r := Ok(t);
  }
}
