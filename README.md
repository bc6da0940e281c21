# aud subtitle engine, modelled in Dafny

`aud` turns a word-timestamped speech-recognition transcript (WhisperX output, already
decoded) into timed subtitle cues. This project models its core and proves properties
of it:

- **Line breaker** (`LineBreak`, helper.dfy). It covers `breakLineByPunctuation`,
  `wordSpace`, and the two punctuation patterns, written as explicit predicates.
- **Segment operations** (`Segments`, segment.dfy). It covers `mergeWith`,
  `allowMerge`, `mustBreak` and `genItems`, which turns one segment into cues whose
  times are interpolated by byte position.
- **Gap pass** (`Subtitle`, subtitle.dfy). It covers `optimizeIntervals`, in place on
  an array of cues.
- **Regrouping** (`Regroup`, regroup.dfy). It covers the folds of `resegmentByWords`
  (words into sentences) and `Resegment` (merging short neighbours).
- **Translation loop** (`Translation`, translation.dfy). The loop of
  `TranslateWithOption` over a translator given as a function.
- **The transcript object** (`Transcripts`, transcript.dfy). A class with the
  transcript's segments, words and language. Its methods are `AvailableLangs`,
  `GenSubtitle`, `SplitSegment`, `ResegmentByWords`, `Resegment` and
  `TranslateWithOption`.
- **Shared text functions** (`Text`, text.dfy). Display width, UTF-8 byte length,
  `strings.TrimSpace`, `strings.Split(s, "\n")` and `strings.Index`.
  (wrappers.dfy holds `Option` and `Result`.)

### Conventions

- **Times** are integer milliseconds. The source's float seconds and `time.Duration`
  become `int` in the model. The merge gap default of 0.5 s is therefore 500.
- **Display width** is `Text.Width`, a sum of per-character widths. Every proof uses
  only its additivity.
- **Go's `len` on strings** is `Text.ByteLen`, the exact UTF-8 length. It is used
  wherever the source compares or divides byte lengths.
- **Methods and specification functions.** Each method that mirrors a Go loop is
  proved equal to a specification function: `MergeWith` = `Merged`,
  `GenItems` = `Cues`, `OptimizeIntervals` = `Optimized`, `RegroupWords` =
  `ByWords`, `MergeShort` = `Regrouped`, `TranslateAll` = `Translating`,
  `SplitLinesOf` = `SplitOf`, `GenSubtitle` = `Subtitled`. The lemmas about those
  functions state what the source promises.
- **Panics become preconditions.** Each place where the Go code would panic is a
  precondition (`requires`):
  - `mergeWith` reads the last word of a segment without words.
  - `SplitSegment` runs out of words.
  - `resegmentByWords` has a trailing group and no kept segment.
  - `Resegment` merges a segment without words.
- **Errors.** The error values of aud.go are the `Transcripts.Error` datatype. Two
  more cases cover the errors built in place (a word without timing, a translator
  failure). `ReadTranscript` applies the loader's shape check (aud.go:27) to the
  decoded fields.

### Behaviour worth knowing

- **Short first fragment.** A first line narrower than 10 columns is extended to the
  next candidate only when at least two more candidates follow (`i+1 < len(indexs)-1`).
  With a single candidate after it, the text is returned whole.
- **Gaps of 500–1800 ms.** The next cue starts 300 ms earlier, and the previous cue
  then ends 300 ms before that new start.
- **`mergeWith` texts.** The source texts are always joined with a single space,
  whatever the language.
- **Merged width.** `allowMerge` bounds the sum of the two widths. The space
  `mergeWith` adds can make the merged text one column wider than `MaxLineLength`
  (`MergedWithinBudget`, `MergedOverBudget`).
- **`mergeWith` translations.** Only the receiver's translation keys are kept. Keys
  present only on the other segment are dropped.
- **Trailing group of `resegmentByWords`.** A leftover group of words without a
  sentence end is kept as a segment of its own, unless its text is empty or equals the
  last kept segment's text (`ByWordsResult`).
- **Cue end in `genItems`.** A cue ends at the segment end when the first occurrence
  of its line reaches the end of the text, which is not always the last line. Offsets
  and lengths are in bytes.
- **Lines wider than the limit.** A line is broken only where a candidate prefix
  fits, so a line whose first candidate ends past the limit stays whole
  (`BreakLineFirstTooWide`). The English sentence of example_subtitle_test.go:31 has
  candidates after "night, ", "mentioned, ", "Rodolfo, ", "carried off, " and
  "family, ". At 72 columns the breaker emits the first three clauses as lines, then
  the rest: "carried off, " ends 77 columns into it. The last line is therefore the
  188-column text from "they had been concerned" to the end, not the last clause
  alone that example_subtitle_test.go:55 prints.
- **Progress callback.** The callback receives the segment's index plus one. Skipped
  segments are not reported, so the numbers can jump (`TranslatingReported`).
- **Mandatory breaks.** A word ends a sentence when its text, untrimmed, ends with a
  sentence mark or with a sentence mark and one space (`MustBreakTextEnd`,
  `MustBreakUntrimmed`).

## Model

| member | source | states |
|---|---|---|
| Text.WidthAppend | helper.go:35 | Width of a concatenation is the sum of the widths |
| Text.WidthPrefix | helper.go:41-42 | A shorter prefix is never wider than a longer one |
| Text.ByteLen | segment.go:64 | The UTF-8 length is between the number of code points and four times it |
| Text.ByteLenAppend | transcript.go:159 | Byte length of a concatenation is the sum of the lengths |
| Text.TrimSpaceSpec | segment.go:103 | TrimSpace keeps a middle slice; only white space is cut; the result neither starts nor ends with white space |
| Text.TrimSpaceWidth | segment.go:102 | Trimming white space never widens a string |
| Text.SplitLines | transcript.go:90 | Splitting at newlines gives at least one piece, no piece holds a newline, and joining the pieces with newlines gives the input back |
| Text.SplitJoinLines | transcript.go:90-93 | Splitting newline-free pieces joined with newlines returns the pieces |
| Text.IndexOf | segment.go:71 | The result is -1 or an occurrence of the substring, and no occurrence lies before it |
| Text.ByteIndex | segment.go:71 | The byte offset is -1 exactly when there is no occurrence |
| Text.IndexOfSelf | segment.go:71 | A text is found at offset 0 of itself |
| LineBreak.WordSpace | helper.go:20-31 | The joiner is empty exactly for zh, ja and ko, and one space otherwise |
| LineBreak.MustBreakText | helper.go:10 | patternMustBreak: the text ends with a sentence mark, possibly followed by one space |
| LineBreak.MustBreakTextEnd | helper.go:10 | A sentence mark ends a sentence alone or followed by one space; any other last character, two trailing spaces or the empty text do not |
| LineBreak.MatchAt | helper.go:11 | A break-candidate match starting at a position is at most two characters and stays inside the text |
| LineBreak.MatchEndsBound | helper.go:39 | Every candidate found from a position ends after it and inside the text |
| LineBreak.MatchEndsIncreasing | helper.go:39 | Candidates are reported left to right without overlap |
| LineBreak.MatchEndsSuffix | helper.go:39-52 | Resuming the scan at a candidate end finds only candidates the whole scan finds |
| LineBreak.RightmostFit | helper.go:40-42 | The descending search returns the largest index whose prefix fits the limit, or -1 when none fits |
| LineBreak.FirstCut | helper.go:40-55 | The first cut is -1 or a candidate end strictly inside the text |
| LineBreak.BreakLine | helper.go:33-57 | At least one line; the lines concatenate to the input; for a non-empty input no line is empty |
| LineBreak.BreakLineFits | helper.go:35-38 | A text within the limit is returned as its only line |
| LineBreak.BreakLineCuts | helper.go:41-52 | Every line but the last ends where a break candidate of the input ends |
| LineBreak.BreakLineFirstLine | helper.go:40-53 | With the rightmost fitting candidate: that prefix is the first line when at least 10 wide; otherwise the next candidate's prefix when two more follow, else the whole text |
| LineBreak.BreakLineAt | helper.go:41-53 | A fitting candidate at least 10 wide whose successor does not fit gives the first line, and the rest is broken the same way |
| LineBreak.BreakLineInTwo | helper.go:41-53 | A single fitting candidate with a fitting remainder breaks the text into exactly two lines there |
| LineBreak.BreakLineSplit | helper.go:51-53 | A text broken into several lines is cut first at a break candidate strictly inside it, and the rest is broken the same way |
| LineBreak.BreakLineNoFit | helper.go:56 | When no candidate prefix fits, the text is returned whole |
| LineBreak.BreakLineFirstTooWide | helper.go:39-56 | When the first candidate prefix is already wider than the limit, the text is returned whole, however wide it is |
| LineBreak.BreakLineLast | helper.go:33-57 | The last line cannot be broken any further |
| Segments.MergeTranslations | segment.go:105-109 | The translation loop of mergeWith computes MergedTranslations |
| Segments.MergedTranslationsContents | segment.go:105-109 | Only the receiver's keys stay; CJK translations join directly, others with one space, the other side trimmed and empty when missing |
| Segments.MergeWith | segment.go:101-110 | Start kept, end from the other's last word, words appended, text joined with " " and the other's trimmed text, translations merged |
| Segments.MergedWellTimed | segment.go:101-104 | Merging keeps a segment's span equal to that of its words |
| Segments.MustBreak | segment.go:112-115 | A word ends a sentence when its raw text matches patternMustBreak |
| Segments.MustBreakUntrimmed | segment.go:112-115 | The word is matched untrimmed: "end." and "end. " end a sentence, "end.  " and "end" do not |
| Segments.MergedWithinBudget | segment.go:117-131 | After a merge that `allowMerge` allowed (translations measured when the language is not the source and both segments have one, source texts otherwise), the measured text of the merged segment is at most the budget plus the joiner's width |
| Segments.MergedOverBudget | segment.go:102 | Two texts whose widths sum to the budget merge into a text one column wider than the budget |
| Segments.CueLines | segment.go:57-68 | Cue lines concatenate to the selected text (translation when present, else the source); one line for an empty text; no empty lines otherwise |
| Segments.GenItems | segment.go:55-99 | The loop of genItems builds exactly the cues Cues describes |
| Segments.ItemsFor | segment.go:70-97 | The per-line loop builds one cue per line as CuesFor describes |
| Segments.NextItem | segment.go:71-96 | One round gives that line's cue and advances the running start as CueStart describes |
| Segments.CuesShape | segment.go:67-96 | One cue per line, cue k holding exactly line k, so the texts spell out the selected text; every cue has the option's style and layer, and the first starts at the segment start |
| Segments.CuesChained | segment.go:78-93 | Cue k starts where cue k-1 ended; when line k-1's occurrence reaches the end of the text, cue k-1 ends with the segment and cue k starts where cue k-1 started |
| Segments.CuesUnbroken | segment.go:64-90 | Without line breaking the result is one cue from segment start to end holding the whole text |
| Segments.CuesEmpty | segment.go:64-90 | An empty text gives one empty cue from segment start to end, with no division by the zero length |
| Segments.TimeAtWithin | segment.go:89-93 | Every interpolated instant lies within the segment |
| Segments.TimeAtMono | segment.go:92 | Interpolation is monotone in the byte offset |
| Segments.CuesWithin | segment.go:69-94 | Every cue starts and ends inside its segment |
| Segments.SecondCue | segment.go:78-93 | The second cue starts where the first line's occurrence ends (or at the segment start if that reaches the end) and ends where its own occurrence ends |
| Segments.CuesInPlace | segment.go:71 | When every line is first found where it sits, the program's cues equal the cues placed by position |
| Segments.RepeatedLineCues | segment.go:71-93 | The program as written: "aaaaaaaaaa, a" broken at 12 over 0–13000 ms yields a second cue from 12000 to 1000 |
| Segments.CuesAtOffsetsTile | segment.go:69-94 | Placed by position, the cues tile the segment: first at the start, each next where the previous ended, last at the end |
| Segments.CuesAtOffsetsOrdered | segment.go:69-94 | Placed by position, no cue runs backwards |
| Segments.RepeatedLineCuesAtOffsets | segment.go:71-93 | Placed by position, the same segment's second cue runs 12000–13000 |
| Segments.RepeatedLineBreak | helper.go:39-53 | "aaaaaaaaaa, a" at limit 12 breaks into "aaaaaaaaaa, " and "a" |
| Subtitle.OptimizeIntervals | subtitle.go:79-95 | The in-place pass leaves exactly Optimized of the original cues, every decision reading original times |
| Subtitle.OptimizedKeeps | subtitle.go:79-94 | Count, order, texts, styles and layers are unchanged |
| Subtitle.OptimizedBounds | subtitle.go:80-83 | The first start and the last end never move |
| Subtitle.GapLeft | subtitle.go:84-93 | The gap left is 0 up to 500 ms, exactly 300 ms up to 1800 ms, and the gap minus 1800 ms beyond |
| Subtitle.OptimizedGaps | subtitle.go:81-93 | Touching cues are untouched; every gap becomes GapLeft of the original; no adjacent pair overlaps |
| Subtitle.OptimizedContiguous | subtitle.go:80-83 | Cues without gaps are left as they are |
| Subtitle.OptimizedNotIdempotent | subtitle.go:79-94 | A second pass can move cues again: a 1000 ms gap becomes 300 ms, then 0 |
| Regroup.FirstLost | transcript.go:142-145 | None iff no word has lost its timing; otherwise the first such word |
| Regroup.ByWordsOptionDefaults | transcript.go:130-136 | Source language always; 500 ms and 200 bytes when unset; idempotent |
| Regroup.ByWords | transcript.go:142-171 | Err iff some word lost its timing, carrying the first such word's text |
| Regroup.StepKeeps | transcript.go:146-166 | One word keeps the fold invariant: the kept segments are closed and well timed, the open group holds no sentence end, and all words so far are held in order |
| Regroup.GroupedInvariant | transcript.go:142-167 | The fold invariant holds after every prefix of the words |
| Regroup.TailShape | transcript.go:168-171 | The leftover group is kept whole or dropped, and the words dropped contain no sentence end |
| Regroup.ByWordsResult | transcript.go:142-172 | On success: well-timed segments without translations; all but the last end at a sentence end; their words are a prefix of the input; the dropped words hold no sentence end; every word is kept exactly when no group is left over or the leftover has text different from the last kept segment's |
| Regroup.AddWord | transcript.go:146-166 | One word of the loop computes Step: grow the group, close it at a sentence end, merging into the last kept segment iff the gap and byte lengths are under the budget |
| Regroup.RegroupWords | transcript.go:137-171 | The loop of resegmentByWords computes ByWords, stopping at the first word without timing |
| Regroup.ResegmentOptionDefaults | transcript.go:180-197 | Language defaults to the source, gap to 500 ms, width to 42 for zh/ko/ja and 72 otherwise; idempotent |
| Regroup.MergeShort | transcript.go:198-207 | The loop of Resegment computes Regrouped |
| Regroup.JoinedShape | transcript.go:201-207 | One round adds at most one segment, appends the segment's words, keeps the first start and well-timedness |
| Regroup.RegroupedCount | transcript.go:198-209 | Resegment never increases the segment count, and leaves none only when there were none |
| Regroup.RegroupedWords | transcript.go:201-207 | Every word is kept exactly once in order, and the first start is kept |
| Regroup.RegroupedWellTimed | transcript.go:201-207 | Well-timed segments stay well timed |
| Regroup.RegroupedApart | transcript.go:202 | Segments all at least the gap budget apart are left unchanged |
| Translation.TranslatingKeeps | transcript.go:241-244 | Times, text, words and every other language's translation of every segment are unchanged |
| Translation.TranslatingUntouched | transcript.go:230-240 | Segments not yet reached are unchanged |
| Translation.TranslatingDone | transcript.go:231-244 | Without failure every segment has the target: the translator's answer when it was wanted, the segment unchanged otherwise |
| Translation.TranslatingFailure | transcript.go:237-240 | A failure is the error of the first wanted segment the translator failed on, and the loop stopped there |
| Translation.TranslatingStops | transcript.go:238-240 | After a failure nothing more changes |
| Translation.TranslatingReports | transcript.go:245-247 | Reports are index+1 of wanted segments only, strictly increasing |
| Translation.TranslatingReported | transcript.go:230-247 | Segment j is reported exactly when it was wanted and its translation (and every earlier one) succeeded: every stored translation is reported, skipped and failed segments are not |
| Translation.TranslateAll | transcript.go:229-249 | The loop computes Translating: skip unless override or missing, commit, report, abort on the first error |
| Transcripts.CallbacksReported | transcript.go:245-247 | The callback receives (j, total) exactly for the segments j (from 1) that were wanted and translated without a failure up to them |
| Transcripts.TranslatedAfterRegrouping | transcript.go:224-244 | After regrouping, a translation pass without failure leaves each segment exactly the target language, holding the translator's answer |
| Transcripts.EffectiveDefaults | transcript.go:54-69 | Default style id "Default" when none; width 42 for zh/ko/ja and 72 otherwise only with line breaking and width 0; other fields kept; idempotent |
| Transcripts.SubtitledFailure | transcript.go:50-53 | GenSubtitle fails iff some option's language is unavailable, naming the first such |
| Transcripts.SubtitledFailurePersists | transcript.go:50-53 | A failing prefix of the options makes the whole call fail the same way |
| Transcripts.SubtitledStep | transcript.go:50-73 | One more option appends its cues and registers its style |
| Transcripts.SubtitledItems | transcript.go:50-73 | Cues are grouped by option in option order |
| Transcripts.SubtitledStyles | transcript.go:54-57 | Every option's style is registered under its own id |
| Transcripts.SegmentCuesInOrder | transcript.go:70-72 | Within an option, the cues are those of each segment in transcript order |
| Transcripts.SegmentCuesStyled | transcript.go:70-72 | Every cue under an option has that option's style and layer |
| Transcripts.SegmentItems | transcript.go:70-72 | The inner loop of GenSubtitle computes SegmentCues |
| Transcripts.CoverEndSpec | transcript.go:109-115 | The word search finds the first end at which the words cover the line |
| Transcripts.LineEndSpec | transcript.go:108-116 | A line takes words up to the first covering point, or all remaining words and the next search restarts at the same word |
| Transcripts.Cuts | transcript.go:99-122 | One non-empty word range per line, the first starting at word 0 |
| Transcripts.CutAt | transcript.go:101-116 | Range k is found by line k's search, and the next search starts where that one left off |
| Transcripts.CutsContiguous | transcript.go:109-116 | When every line is covered, each range starts where the previous ended |
| Transcripts.Piece | transcript.go:103-120 | A piece is timed from its first word to its last |
| Transcripts.SplitOf | transcript.go:99-122 | One new segment per source line |
| Transcripts.SplitShape | transcript.go:99-122 | The pieces' texts and every translation's pieces join back with newlines; same translation keys; well timed; the first starts with the first word |
| Transcripts.SplitConsumes | transcript.go:100-116 | When every line is covered, the pieces hold a prefix of the words, each once in order |
| Transcripts.ConsumeLine | transcript.go:108-116 | The inner loop takes exactly the words up to LineEnd and resumes at NextIndex |
| Transcripts.SplitTranslations | transcript.go:90-97 | No mismatch iff every translation has as many lines as the text; a mismatch names a translation with another line count |
| Transcripts.CopyLine | transcript.go:118-120 | Line i of every translation |
| Transcripts.SplitLine | transcript.go:102-121 | One round builds piece i and the next search start |
| Transcripts.SplitLinesOf | transcript.go:99-122 | The main loop builds SplitOf |
| Transcripts.Transcript.constructor | transcript.go:19-24 | The transcript holds the given segments, words and language |
| Transcripts.Transcript.Loaded | aud.go:27 | A language, at least one segment and at least one word |
| Transcripts.ReadTranscript | aud.go:20-30 | Refused with FormatNotSupported exactly when the language, the segments or the words are missing; otherwise a fresh transcript holding the decoded fields, which is Loaded |
| Transcripts.Transcript.AvailableLangs | transcript.go:27-40 | The first segment's translation keys, each once, then the source language last |
| Transcripts.Transcript.GenSubtitle | transcript.go:43-78 | The result is Subtitled: an error for the first unavailable language, else all cues and styles |
| Transcripts.Transcript.SplitSegment | transcript.go:83-126 | Out of range or a line-count mismatch: error, nothing changes; otherwise segment index is replaced in place by SplitOf |
| Transcripts.Transcript.ResegmentByWords | transcript.go:129-174 | A word without timing: that error and segments unchanged; otherwise segments become ByWords |
| Transcripts.Transcript.Resegment | transcript.go:177-210 | The effective option gets its defaults; segments and result become Regrouped of the old segments |
| Transcripts.Transcript.TranslateWithOption | transcript.go:218-250 | Same language: no change. Otherwise optional regrouping (its error returned), then segments end as Translating, with the translator's error and the callback calls |

## Left out

- Locking (`sync.RWMutex`): every method runs alone on the transcript.
- `ReadTranscript` and `LoadTranscript` (aud.go:19-42): JSON decoding and file access
  are I/O. `ReadTranscript` takes the decoded fields and keeps the check of aud.go:27.
- The translator backend and its `context.Context`: foreign calls. The translator is a
  pure function of (text, source, target). The progress callback is modelled as the
  sequence of calls it receives, returned by `TranslateWithOption`.
- `Translate` (transcript.go:213-215) is `TranslateWithOption` with every option off.
  It has no member of its own.
- `GenSubtitle`'s title, its metadata and its `optimize` flag. They write
  configuration, and `OptimizeGaps` is not part of this model. `GenSubtitle` is
  modelled as called without gap optimisation.
- Style and metadata presets (subtitle.go:10-76): configuration. A style is known by
  its identifier only.
- Float seconds and `time.Duration`: times are integer milliseconds. Interpolation
  rounds down, as Go's conversion truncates for non-negative instants.
- Display width: `CharWidth` is a fixed approximation of the East Asian Width
  property (Unicode Standard Annex #11), not its tables. The proofs use only
  additivity.
- Regular expressions: the two patterns are explicit predicates over code points.
  Match positions and `strings.Index` are in code points, converted to bytes where
  the source uses byte lengths.
- Speaker, character spans and scores are not modelled. The program drops or replaces
  them in three places: `SplitSegment` builds its pieces from the times, text, words
  and translations only (transcript.go:103-107), so the pieces lose them;
  `resegmentByWords` builds new segments without them (transcript.go:138, 165); and
  `mergeWith` keeps the receiver's and drops those of the segment merged into it
  (segment.go:101-104). Other operations leave them as they are.
- A nil translation map and an empty one are both the empty map.
- Aliasing: Go segments share their `Words` slices and `Translations` maps with the
  slice they came from. `Resegment`'s `mergeWith` therefore also updates the maps of
  the old segment list, which callers holding that list can see. The model works on
  values.
- `SplitSegment`'s inner loop accumulates a string `line`. The model folds it into
  `Covers`: the words from the start index, each after a space, as `Spaced` builds
  them. `ConsumeLine` therefore keeps no `line` variable.
- Map iteration order: `AvailableLangs` and `SplitSegment` visit translations in the
  map's unspecified order. Their contracts hold for every order.
- The example tests' end-to-end wrapping checks are not proved on their literal
  sentences (example_translate_test.go:20, expected lines at
  example_translate_test.go:60-64 and example_subtitle_test.go:53-55). Evaluating the
  breaker on a literal of a hundred or more characters is beyond what the verifier
  does in reasonable time. The model proves the general rules those results follow
  from (`BreakLineAt`, `BreakLineFirstTooWide`); the column counts quoted above are
  counted by hand.
- `Subtitles` holds only the cues and styles the engine fills in.

## Findings

| source | as written | input that shows it | evidently intended | confidence | as-written member | corrected member |
|---|---|---|---|---|---|---|
| segment.go:71-93 | Each line is located by its first occurrence in the whole text (`strings.Index`), so a line that also occurs earlier is timed from that earlier occurrence | Text "aaaaaaaaaa, a" with line breaking at 12 columns over 0–13000 ms: the lines are "aaaaaaaaaa, " and "a"; "a" is found at offset 0, so the second cue starts at 12000 and ends at 1000, before it starts, instead of ending at the segment end | Each line is placed after the lines before it, so the cues tile the segment in order | not executed | Segments.RepeatedLineCues | Segments.CuesAtOffsetsTile, Segments.CuesAtOffsetsOrdered, Segments.RepeatedLineCuesAtOffsets |

The subtitle builder (`GenItems`, `GenSubtitle`) keeps the program's placement, since
it is what the program does. `Segments.CuesInPlace` proves that the two placements
agree whenever every line is first found where it sits, which is the usual case.
