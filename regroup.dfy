/**
 * transcript.go, the two ways of regrouping a transcript: `resegmentByWords`, which
 * rebuilds the segments from the recognised words, cutting after every word that ends a
 * sentence, and `Resegment`, which merges short neighbouring segments. Both are written
 * here as folds over their input, the loop of the program one step at a time; the
 * transcript methods that run them are in module `Transcripts`.
 */
module Regroup {
  import opened Wrappers
  import opened Text
  import opened LineBreak
  import opened Segments

  /** The line width budget when none is given: CJK languages and the others. */
  const DefaultMaxLineLength := 72
  const DefaultCJKMaxLineLength := 42

  /** The gap in milliseconds below which regrouping merges, when none is given. */
  const DefaultMaxInterval := 500
  /** The byte budget `resegmentByWords` gives a merged segment when none is given. */
  const ByWordsMaxLineLength := 200

  /** The words of a run of segments, segment after segment. */
  function AllWords(segments: seq<Segment>): seq<Word> {
    if segments == [] then [] else AllWords(segments[..|segments| - 1]) + segments[|segments| - 1].words
  }

  lemma {:induction false} AllWordsAppend(a: seq<Segment>, b: seq<Segment>)
    ensures AllWords(a + b) == AllWords(a) + AllWords(b)
    decreases |b|
  {
    if b == [] {
      assert a + b == a;
    } else {
      assert (a + b)[..|a + b| - 1] == a + b[..|b| - 1];
      AllWordsAppend(a, b[..|b| - 1]);
    }
  }

  /** Replacing the last segment changes only the last segment's share of the words. */
  lemma ReplaceLastWords(kept: seq<Segment>, s: Segment)
    requires |kept| > 0
    ensures AllWords(kept[..|kept| - 1] + [s]) == AllWords(kept[..|kept| - 1]) + s.words
    ensures AllWords(kept) == AllWords(kept[..|kept| - 1]) + kept[|kept| - 1].words
  {
    assert (kept[..|kept| - 1] + [s])[..|kept| - 1] == kept[..|kept| - 1];
  }

  // ---------------------------------------------------------------------------------
  // resegmentByWords

  /** The segment `resegmentByWords` starts every group with. */
  const Fresh := Segment(0, 0, "", [], map[])

  /** The state of the loop: the group being built and the segments kept so far. */
  datatype Grouping = Grouping(current: Segment, kept: seq<Segment>)

  /** A word whose start and end are both zero has lost its timing. */
  predicate LostTiming(w: Word) {
    w.start == 0 && w.end == 0
  }

  /** The position of the first word that has lost its timing, if any. */
  function FirstLost(words: seq<Word>): (r: Option<nat>)
    ensures r.None? <==> forall k :: 0 <= k < |words| ==> !LostTiming(words[k])
    ensures r.Some? ==> r.value < |words| && LostTiming(words[r.value])
    ensures r.Some? ==> forall k :: 0 <= k < r.value ==> !LostTiming(words[k])
  {
    if words == [] then None
    else if LostTiming(words[0]) then Some(0)
    else match FirstLost(words[1..]) {
      case None => None
      case Some(k) => Some(k + 1)
    }
  }

  /** The group after word `w` is added: the first word sets the start and the text,
      later ones extend the text after `space`; the end is always the word's. */
  function Grow(current: Segment, w: Word, space: string): Segment {
    if current.words == [] then
      current.(start := w.start, end := w.end, text := current.text + TrimSpace(w.text), words := [w])
    else
      current.(end := w.end, text := current.text + space + TrimSpace(w.text), words := current.words + [w])
  }

  /** The closed group `seg` joins the last kept segment when the gap to it is under
      `interval` and their texts together are under `maxLen` bytes. */
  predicate JoinsLast(kept: seq<Segment>, seg: Segment, interval: int, maxLen: int) {
    |kept| > 0
      && seg.start - kept[|kept| - 1].end < interval
      && ByteLen(seg.text) + ByteLen(kept[|kept| - 1].text) < maxLen
  }

  /** One round of the loop of `resegmentByWords`. */
  function Step(g: Grouping, w: Word, space: string, interval: int, maxLen: int): Grouping {
    var seg := Grow(g.current, w, space);
    if !MustBreak(w) then Grouping(seg, g.kept)
    else if JoinsLast(g.kept, seg, interval, maxLen) then
      Grouping(Fresh, g.kept[..|g.kept| - 1] + [Merged(g.kept[|g.kept| - 1], seg)])
    else Grouping(Fresh, g.kept + [seg])
  }

  /** The loop state after `words`, none of them without timing. */
  function Grouped(words: seq<Word>, space: string, interval: int, maxLen: int): Grouping {
    if words == [] then Grouping(Fresh, [])
    else Step(Grouped(words[..|words| - 1], space, interval, maxLen), words[|words| - 1], space, interval, maxLen)
  }

  /** The options `resegmentByWords` works with: the gap and the budget defaulted, the
      language always the source's. */
  function ByWordsOption(opt: ResegmentOption, language: string): ResegmentOption {
    ResegmentOption(
      if opt.maxInterval == 0 then DefaultMaxInterval else opt.maxInterval,
      if opt.maxLineLength == 0 then ByWordsMaxLineLength else opt.maxLineLength,
      language)
  }

  /** The loop state at the end of `resegmentByWords`. */
  function GroupedByWords(words: seq<Word>, language: string, opt: ResegmentOption): Grouping {
    var o := ByWordsOption(opt, language);
    Grouped(words, WordSpace(language), o.maxInterval, o.maxLineLength)
  }

  /** The program compares a leftover group with the last kept segment without checking
      that there is one: a leftover with text needs a kept segment before it. */
  predicate TailPlaced(words: seq<Word>, language: string, opt: ResegmentOption) {
    var g := GroupedByWords(words, language, opt);
    g.current.text != "" ==> |g.kept| > 0
  }

  /** The leftover group is kept when it has text that differs from the last kept
      segment's. */
  function WithTail(g: Grouping): seq<Segment>
    requires g.current.text != "" ==> |g.kept| > 0
  {
    if g.current.text != "" && g.kept[|g.kept| - 1].text != g.current.text then g.kept + [g.current]
    else g.kept
  }

  /** The defaults `resegmentByWords` fills in: always the source language, 500 ms and
      200 bytes; filling them in twice changes nothing. */
  lemma ByWordsOptionDefaults(opt: ResegmentOption, language: string)
    ensures var o := ByWordsOption(opt, language);
      && o.langCode == language
      && (opt.maxInterval == 0 ==> o.maxInterval == 500)
      && (opt.maxInterval != 0 ==> o.maxInterval == opt.maxInterval)
      && (opt.maxLineLength == 0 ==> o.maxLineLength == 200)
      && (opt.maxLineLength != 0 ==> o.maxLineLength == opt.maxLineLength)
      && ByWordsOption(o, language) == o
  {
  }

  /** What `resegmentByWords` computes: the text of the first word without timing as the
      error, or the new segments. */
  function ByWords(words: seq<Word>, language: string, opt: ResegmentOption): (r: Result<seq<Segment>, string>)
    requires FirstLost(words).None? ==> TailPlaced(words, language, opt)
    ensures r.Err? <==> exists k :: 0 <= k < |words| && LostTiming(words[k])
    ensures r.Err? ==> exists k ::
      && 0 <= k < |words| && LostTiming(words[k]) && r.error == words[k].text
      && forall j :: 0 <= j < k ==> !LostTiming(words[j])
  {
    match FirstLost(words)
    case Some(k) => Err(words[k].text)
    case None => Ok(WithTail(GroupedByWords(words, language, opt)))
  }

  /** A kept segment: well timed, without translations, ending with a word that ends a
      sentence. */
  predicate Closed(s: Segment) {
    WellTimed(s) && s.translations == map[] && MustBreak(s.words[|s.words| - 1])
  }

  predicate AllClosed(kept: seq<Segment>) {
    forall i :: 0 <= i < |kept| ==> Closed(kept[i])
  }

  /** The group being built: empty, or well timed; no translations, and none of its words
      ends a sentence. */
  predicate Open(c: Segment) {
    && (c.words == [] ==> c == Fresh)
    && (c.words != [] ==> WellTimed(c))
    && c.translations == map[]
    && (forall k :: 0 <= k < |c.words| ==> !MustBreak(c.words[k]))
  }

  /** What the loop keeps true: the kept segments and the current group hold the words
      read so far, in order; the kept segments are closed and the current group open. */
  predicate GroupingInvariant(g: Grouping, words: seq<Word>) {
    AllWords(g.kept) + g.current.words == words && AllClosed(g.kept) && Open(g.current)
  }

  /** A word that does not end a sentence leaves the group open. */
  lemma GrowOpen(c: Segment, w: Word, space: string)
    requires Open(c) && !MustBreak(w)
    ensures Open(Grow(c, w, space)) && Grow(c, w, space).words == c.words + [w]
  {
  }

  /** A word that ends a sentence closes the group. */
  lemma GrowClosed(c: Segment, w: Word, space: string)
    requires Open(c) && MustBreak(w)
    ensures Closed(Grow(c, w, space)) && Grow(c, w, space).words == c.words + [w]
  {
  }

  /** Keeping a closed group as a new segment. */
  lemma ClosedAppend(kept: seq<Segment>, seg: Segment)
    requires AllClosed(kept) && Closed(seg)
    ensures AllClosed(kept + [seg]) && AllWords(kept + [seg]) == AllWords(kept) + seg.words
  {
    assert (kept + [seg])[..|kept|] == kept;
  }

  /** Merging a closed group into the last kept segment. */
  lemma ClosedMerge(kept: seq<Segment>, seg: Segment)
    requires |kept| > 0 && AllClosed(kept) && Closed(seg)
    ensures var r := kept[..|kept| - 1] + [Merged(kept[|kept| - 1], seg)];
      AllClosed(r) && AllWords(r) == AllWords(kept) + seg.words
  {
    var last := kept[|kept| - 1];
    var m := Merged(last, seg);
    ReplaceLastWords(kept, m);
    MergedWellTimed(last, seg);
    assert m.translations == map[];
    assert m.words[|m.words| - 1] == seg.words[|seg.words| - 1];
    var r := kept[..|kept| - 1] + [m];
    assert forall i :: 0 <= i < |kept| - 1 ==> r[i] == kept[i];
  }

  /** One round keeps the invariant. */
  lemma StepKeeps(g: Grouping, words: seq<Word>, w: Word, space: string, interval: int, maxLen: int)
    requires GroupingInvariant(g, words)
    ensures GroupingInvariant(Step(g, w, space, interval, maxLen), words + [w])
  {
    var seg := Grow(g.current, w, space);
    assert AllWords(g.kept) + (g.current.words + [w]) == words + [w];
    if !MustBreak(w) {
      GrowOpen(g.current, w, space);
    } else {
      GrowClosed(g.current, w, space);
      if JoinsLast(g.kept, seg, interval, maxLen) {
        ClosedMerge(g.kept, seg);
      } else {
        ClosedAppend(g.kept, seg);
      }
    }
  }

  /** The invariant holds after every prefix of the words. */
  lemma {:induction false} GroupedInvariant(words: seq<Word>, space: string, interval: int, maxLen: int)
    ensures GroupingInvariant(Grouped(words, space, interval, maxLen), words)
  {
    if words != [] {
      var init := words[..|words| - 1];
      GroupedInvariant(init, space, interval, maxLen);
      StepKeeps(Grouped(init, space, interval, maxLen), init, words[|words| - 1], space, interval, maxLen);
      assert init + [words[|words| - 1]] == words;
    }
  }

  /** What the leftover group adds: it is kept whole or dropped, and then it holds no
      word that ends a sentence. */
  lemma TailShape(g: Grouping, words: seq<Word>)
    requires GroupingInvariant(g, words) && (g.current.text != "" ==> |g.kept| > 0)
    ensures var out := WithTail(g);
      && (forall i :: 0 <= i < |out| ==> WellTimed(out[i]) && out[i].translations == map[])
      && (forall i :: 0 <= i < |out| - 1 ==> MustBreak(out[i].words[|out[i].words| - 1]))
      && AllWords(out) <= words
      && (forall k :: |AllWords(out)| <= k < |words| ==> !MustBreak(words[k]))
  {
    var out := WithTail(g);
    if out != g.kept {
      AppendShape(g.kept, g.current);
      assert forall i :: 0 <= i < |g.kept| ==> out[i] == g.kept[i];
    } else {
      assert words[|AllWords(out)|..] == g.current.words;
    }
  }

  /** What `resegmentByWords` promises on success: well-timed segments without
      translations, holding the words in order; every segment but the last ends with a
      word that ends a sentence, and the only words left out are a trailing run in which
      no word ends a sentence. That run is left out exactly when its text is empty or
      equals the text of the last segment kept before it. */
  lemma ByWordsResult(words: seq<Word>, language: string, opt: ResegmentOption)
    requires FirstLost(words).None? && TailPlaced(words, language, opt)
    ensures var out := ByWords(words, language, opt).value;
      && (forall i :: 0 <= i < |out| ==> WellTimed(out[i]) && out[i].translations == map[])
      && (forall i :: 0 <= i < |out| - 1 ==> MustBreak(out[i].words[|out[i].words| - 1]))
      && AllWords(out) <= words
      && (forall k :: |AllWords(out)| <= k < |words| ==> !MustBreak(words[k]))
      && (words != [] && MustBreak(words[|words| - 1]) ==> AllWords(out) == words)
    ensures var out := ByWords(words, language, opt).value;
      var g := GroupedByWords(words, language, opt);
      (AllWords(out) == words <==>
         g.current.words == [] || (g.current.text != "" && g.kept[|g.kept| - 1].text != g.current.text))
  {
    var o := ByWordsOption(opt, language);
    var g := GroupedByWords(words, language, opt);
    GroupedInvariant(words, WordSpace(language), o.maxInterval, o.maxLineLength);
    TailShape(g, words);
    if g.current.text != "" && g.kept[|g.kept| - 1].text != g.current.text {
      AllWordsAppend(g.kept, [g.current]);
    }
  }

  /** One word of the loop of `resegmentByWords`: the word joins the group; a word that
      ends a sentence closes it, merging it into the last kept segment when that is close
      and short enough, and starts a new group. */
  method AddWord(current: Segment, kept: seq<Segment>, w: Word, space: string, interval: int, maxLen: int)
    returns (current': Segment, kept': seq<Segment>)
    ensures Grouping(current', kept') == Step(Grouping(current, kept), w, space, interval, maxLen)
  {
    var segment := current.(words := current.words + [w]);
    if |segment.words| == 1 {
      segment := segment.(start := w.start, text := segment.text + TrimSpace(w.text));
    } else {
      segment := segment.(text := segment.text + space + TrimSpace(w.text));
    }
    segment := segment.(end := w.end);
    assert segment == Grow(current, w, space);
    if !MustBreak(w) {
      return segment, kept;
    }
    if |kept| > 0 && segment.start - kept[|kept| - 1].end < interval
      && ByteLen(segment.text) + ByteLen(kept[|kept| - 1].text) < maxLen
    {
      var merged := MergeWith(kept[|kept| - 1], segment);
      return Fresh, kept[..|kept| - 1] + [merged];
    }
    return Fresh, kept + [segment];
  }

  /** `resegmentByWords` on the words of a transcript: the first word without timing is
      reported by its text; otherwise the words regrouped into sentences. */
  method RegroupWords(words: seq<Word>, language: string, opt: ResegmentOption) returns (r: Result<seq<Segment>, string>)
    requires FirstLost(words).None? ==> TailPlaced(words, language, opt)
    ensures r == ByWords(words, language, opt)
  {
    var o := ByWordsOption(opt, language);
    var space := WordSpace(language);
    var segment := Fresh;
    var segments: seq<Segment> := [];
    for i := 0 to |words|
      invariant forall k :: 0 <= k < i ==> !LostTiming(words[k])
      invariant Grouping(segment, segments) == Grouped(words[..i], space, o.maxInterval, o.maxLineLength)
    {
      var word := words[i];
      if word.end == 0 && word.start == 0 {
        assert FirstLost(words) == Some(i);
        return Err(word.text);
      }
      assert words[..i + 1][..i] == words[..i];
      segment, segments := AddWord(segment, segments, word, space, o.maxInterval, o.maxLineLength);
    }
    assert words[..|words|] == words;
    if segment.text != "" && segments[|segments| - 1].text != segment.text {
      segments := segments + [segment];
    }
    r := Ok(segments);
  }

  // ---------------------------------------------------------------------------------
  // Resegment

  /** The options `Resegment` works with: the language defaults to the source's, the gap
      to 500 ms, the width to the language's default. */
  function ResegmentOptionFor(option: ResegmentOption, language: string): ResegmentOption {
    var lang := if option.langCode == "" then language else option.langCode;
    ResegmentOption(
      if option.maxInterval == 0 then DefaultMaxInterval else option.maxInterval,
      if option.maxLineLength == 0 then (if IsCJK(lang) then DefaultCJKMaxLineLength else DefaultMaxLineLength)
      else option.maxLineLength,
      lang)
  }

  /** The defaults `Resegment` fills in, and filling them in twice changes nothing. */
  lemma ResegmentOptionDefaults(option: ResegmentOption, language: string)
    ensures var o := ResegmentOptionFor(option, language);
      && (option.langCode == "" ==> o.langCode == language)
      && (option.langCode != "" ==> o.langCode == option.langCode)
      && (option.maxInterval == 0 ==> o.maxInterval == 500)
      && (option.maxInterval != 0 ==> o.maxInterval == option.maxInterval)
      && (option.maxLineLength == 0 && IsCJK(o.langCode) ==> o.maxLineLength == 42)
      && (option.maxLineLength == 0 && !IsCJK(o.langCode) ==> o.maxLineLength == 72)
      && (option.maxLineLength != 0 ==> o.maxLineLength == option.maxLineLength)
      && ResegmentOptionFor(o, language) == o
  {
  }

  /** `seg` is merged into the last segment kept: the gap is under the budget and the
      two fit side by side. */
  predicate Merges(kept: seq<Segment>, seg: Segment, language: string, o: ResegmentOption) {
    |kept| > 0
      && seg.start - kept[|kept| - 1].end < o.maxInterval
      && AllowMerge(seg, kept[|kept| - 1], language, o)
  }

  /** One round of the loop of `Resegment`. `mergeWith` reads the last word of the
      segment merged in, so a segment without words must never be merged. */
  function Joined(kept: seq<Segment>, seg: Segment, language: string, o: ResegmentOption): seq<Segment>
    requires Merges(kept, seg, language, o) ==> |seg.words| > 0
  {
    if Merges(kept, seg, language, o) then kept[..|kept| - 1] + [Merged(kept[|kept| - 1], seg)]
    else kept + [seg]
  }

  /** No segment without words is merged into another. */
  predicate CanRegroup(segments: seq<Segment>, language: string, o: ResegmentOption)
    decreases |segments|, 0
  {
    if segments == [] then true
    else
      var init := segments[..|segments| - 1];
      && CanRegroup(init, language, o)
      && (Merges(Regrouped(init, language, o), segments[|segments| - 1], language, o) ==> |segments[|segments| - 1].words| > 0)
  }

  /** The segments `Resegment` leaves, under the effective options `o`. */
  function Regrouped(segments: seq<Segment>, language: string, o: ResegmentOption): seq<Segment>
    requires CanRegroup(segments, language, o)
    decreases |segments|, 1
  {
    if segments == [] then []
    else Joined(Regrouped(segments[..|segments| - 1], language, o), segments[|segments| - 1], language, o)
  }

  predicate AllWellTimed(segments: seq<Segment>) {
    forall i :: 0 <= i < |segments| ==> WellTimed(segments[i])
  }

  /** A prefix of a transcript that can be regrouped can be regrouped itself. */
  lemma {:induction false} CanRegroupPrefix(segments: seq<Segment>, language: string, o: ResegmentOption, n: nat)
    requires n <= |segments| && CanRegroup(segments, language, o)
    ensures CanRegroup(segments[..n], language, o)
    decreases |segments|
  {
    if n < |segments| {
      var init := segments[..|segments| - 1];
      assert init[..n] == segments[..n];
      CanRegroupPrefix(init, language, o, n);
    } else {
      assert segments[..n] == segments;
    }
  }

  /** The loop of `Resegment` under the effective options `o`: every segment is merged
      into the last one kept when the gap is short and the two fit, or kept. */
  method MergeShort(segments: seq<Segment>, language: string, o: ResegmentOption) returns (r: seq<Segment>)
    requires CanRegroup(segments, language, o)
    ensures r == Regrouped(segments, language, o)
  {
    r := [];
    for i := 0 to |segments|
      invariant CanRegroup(segments[..i], language, o)
      invariant r == Regrouped(segments[..i], language, o)
    {
      var segment := segments[i];
      CanRegroupPrefix(segments, language, o, i + 1);
      assert segments[..i + 1][..i] == segments[..i];
      if |r| > 0 && segment.start - r[|r| - 1].end < o.maxInterval && AllowMerge(segment, r[|r| - 1], language, o) {
        var merged := MergeWith(r[|r| - 1], segment);
        r := r[..|r| - 1] + [merged];
      } else {
        r := r + [segment];
      }
    }
    assert segments[..|segments|] == segments;
  }

  /** Merging `seg` into the last of `kept`: as many segments, `seg`'s words added at
      the end, the first start unchanged, and well-timed segments stay well timed. */
  lemma MergeLastShape(kept: seq<Segment>, seg: Segment)
    requires |kept| > 0 && |seg.words| > 0
    ensures var r := kept[..|kept| - 1] + [Merged(kept[|kept| - 1], seg)];
      && |r| == |kept|
      && AllWords(r) == AllWords(kept) + seg.words
      && r[0].start == kept[0].start
      && (AllWellTimed(kept) ==> AllWellTimed(r))
  {
    var last := kept[|kept| - 1];
    var m := Merged(last, seg);
    ReplaceLastWords(kept, m);
    var r := kept[..|kept| - 1] + [m];
    assert forall i :: 0 <= i < |kept| - 1 ==> r[i] == kept[i];
    if AllWellTimed(kept) {
      MergedWellTimed(last, seg);
    }
  }

  /** Keeping `seg` as a segment of its own. */
  lemma AppendShape(kept: seq<Segment>, seg: Segment)
    ensures var r := kept + [seg];
      && AllWords(r) == AllWords(kept) + seg.words
      && r[0].start == (if kept == [] then seg.start else kept[0].start)
  {
    assert (kept + [seg])[..|kept|] == kept;
  }

  /** One round of `Resegment`: at most one more segment, never none, `seg`'s words
      added at the end, the first start kept, well-timed segments stay well timed. */
  lemma JoinedShape(kept: seq<Segment>, seg: Segment, language: string, o: ResegmentOption)
    requires Merges(kept, seg, language, o) ==> |seg.words| > 0
    ensures var r := Joined(kept, seg, language, o);
      && |kept| <= |r| <= |kept| + 1 && r != []
      && AllWords(r) == AllWords(kept) + seg.words
      && r[0].start == (if kept == [] then seg.start else kept[0].start)
      && (AllWellTimed(kept) && WellTimed(seg) ==> AllWellTimed(r))
  {
    if Merges(kept, seg, language, o) {
      MergeLastShape(kept, seg);
    } else {
      AppendShape(kept, seg);
      assert forall i :: 0 <= i < |kept| ==> (kept + [seg])[i] == kept[i];
    }
  }

  /** Regrouping never adds segments, and leaves none exactly when there were none. */
  lemma {:induction false} RegroupedCount(segments: seq<Segment>, language: string, o: ResegmentOption)
    requires CanRegroup(segments, language, o)
    ensures |Regrouped(segments, language, o)| <= |segments|
    ensures Regrouped(segments, language, o) == [] <==> segments == []
    decreases |segments|
  {
    if segments != [] {
      var init := segments[..|segments| - 1];
      RegroupedCount(init, language, o);
      JoinedShape(Regrouped(init, language, o), segments[|segments| - 1], language, o);
    }
  }

  /** Regrouping keeps every word exactly once and in order, and keeps the first start. */
  lemma {:induction false} RegroupedWords(segments: seq<Segment>, language: string, o: ResegmentOption)
    requires CanRegroup(segments, language, o)
    ensures AllWords(Regrouped(segments, language, o)) == AllWords(segments)
    ensures segments != [] ==> Regrouped(segments, language, o)[0].start == segments[0].start
    decreases |segments|
  {
    if segments != [] {
      var init := segments[..|segments| - 1];
      var seg := segments[|segments| - 1];
      RegroupedWords(init, language, o);
      RegroupedCount(init, language, o);
      JoinedShape(Regrouped(init, language, o), seg, language, o);
      ReplaceLastWords(segments, seg);
      if init != [] {
        assert init[0] == segments[0];
      }
    }
  }

  /** Merging keeps segments well timed. */
  lemma {:induction false} RegroupedWellTimed(segments: seq<Segment>, language: string, o: ResegmentOption)
    requires CanRegroup(segments, language, o) && AllWellTimed(segments)
    ensures AllWellTimed(Regrouped(segments, language, o))
    decreases |segments|
  {
    if segments != [] {
      var init := segments[..|segments| - 1];
      assert forall i :: 0 <= i < |init| ==> init[i] == segments[i];
      RegroupedWellTimed(init, language, o);
      JoinedShape(Regrouped(init, language, o), segments[|segments| - 1], language, o);
    }
  }

  /** Segments that are all at least the gap budget apart are left as they are. */
  lemma {:induction false} RegroupedApart(segments: seq<Segment>, language: string, o: ResegmentOption)
    requires forall k :: 0 < k < |segments| ==> segments[k].start - segments[k - 1].end >= o.maxInterval
    ensures CanRegroup(segments, language, o) && Regrouped(segments, language, o) == segments
    decreases |segments|
  {
    if segments != [] {
      var init := segments[..|segments| - 1];
      RegroupedApart(init, language, o);
      assert init + [segments[|segments| - 1]] == segments;
    }
  }
}
