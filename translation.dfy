/**
 * translate.go and the translation loop of `TranslateWithOption` (transcript.go): every
 * segment's text is sent to a translator and the answer stored under the target
 * language, skipping segments that already have one unless asked to override, and
 * reporting progress after every segment translated. The translator is a parameter: a
 * function from (text, source language, target language) to a translation or an error
 * message; the context it is given in Go is not modelled.
 */
module Translation {
  import opened Wrappers
  import opened Segments

  /** `Translator.Translate`, as a pure function of its inputs. */
  type Translator = (string, string, string) -> Result<string, string>

  /** The loop state after some segments: the segments as updated so far, the translator
      error that ended the loop if any, and the progress reports made (`index + 1` for
      every segment translated). */
  datatype Progress = Progress(segments: seq<Segment>, failure: Option<string>, reports: seq<nat>)

  /** Segment `s` is sent to the translator: overriding, or it has no translation into
      `target` yet. */
  predicate Wanted(s: Segment, target: string, override: bool) {
    override || target !in s.translations
  }

  /** The loop over the first `n` of `segs`. A segment's text and its current
      translations are those it had when the loop began, since each index is written
      only once. */
  function Translating(segs: seq<Segment>, language: string, target: string, override: bool,
                       translate: Translator, n: nat): (p: Progress)
    requires n <= |segs|
    ensures |p.segments| == |segs|
  {
    if n == 0 then Progress(segs, None, [])
    else
      var prev := Translating(segs, language, target, override, translate, n - 1);
      var s := segs[n - 1];
      if prev.failure.Some? || !Wanted(s, target, override) then prev
      else match translate(s.text, language, target) {
        case Err(m) => prev.(failure := Some(m))
        case Ok(t) =>
          prev.(segments := prev.segments[n - 1 := s.(translations := s.translations[target := t])],
                reports := prev.reports + [n])
      }
  }

  /** Only translations change, and only the one into `target`: every segment keeps its
      times, text and words, and its other translations. */
  lemma {:induction false} TranslatingKeeps(segs: seq<Segment>, language: string, target: string, override: bool,
                                            translate: Translator, n: nat, i: nat)
    requires n <= |segs| && i < |segs|
    ensures var s := Translating(segs, language, target, override, translate, n).segments[i];
      && s.start == segs[i].start && s.end == segs[i].end && s.text == segs[i].text && s.words == segs[i].words
      && s.translations.Keys - {target} == segs[i].translations.Keys - {target}
      && forall l :: l in segs[i].translations && l != target ==> l in s.translations && s.translations[l] == segs[i].translations[l]
  {
    if n > 0 {
      TranslatingKeeps(segs, language, target, override, translate, n - 1, i);
    }
  }

  /** Segments the loop has not reached, and segments after a failure, are untouched. */
  lemma {:induction false} TranslatingUntouched(segs: seq<Segment>, language: string, target: string, override: bool,
                                                translate: Translator, n: nat, i: nat)
    requires n <= i < |segs|
    ensures Translating(segs, language, target, override, translate, n).segments[i] == segs[i]
  {
    if n > 0 {
      TranslatingUntouched(segs, language, target, override, translate, n - 1, i);
    }
  }

  /** Without a failure, every segment reached has a translation into `target`: the
      translator's answer for its text when it was wanted, the one it had otherwise. A
      segment that had one is left as it was unless overriding. */
  lemma {:induction false} TranslatingDone(segs: seq<Segment>, language: string, target: string, override: bool,
                                           translate: Translator, n: nat, i: nat)
    requires i < n <= |segs|
    requires Translating(segs, language, target, override, translate, n).failure.None?
    ensures var s := Translating(segs, language, target, override, translate, n).segments[i];
      && target in s.translations
      && (Wanted(segs[i], target, override) ==> translate(segs[i].text, language, target) == Ok(s.translations[target]))
      && (!Wanted(segs[i], target, override) ==> s == segs[i])
  {
    var prev := Translating(segs, language, target, override, translate, n - 1);
    if i < n - 1 {
      TranslatingDone(segs, language, target, override, translate, n - 1, i);
    } else {
      TranslatingUntouched(segs, language, target, override, translate, n - 1, i);
    }
  }

  /** A failure is the error the translator gave for the first wanted segment it could
      not translate; the segments from there on are untouched. */
  lemma {:induction false} TranslatingFailure(segs: seq<Segment>, language: string, target: string, override: bool,
                                              translate: Translator, n: nat)
    requires n <= |segs|
    requires Translating(segs, language, target, override, translate, n).failure.Some?
    ensures var p := Translating(segs, language, target, override, translate, n);
      exists k :: 0 <= k < n
        && Wanted(segs[k], target, override)
        && translate(segs[k].text, language, target) == Err(p.failure.value)
        && p == Translating(segs, language, target, override, translate, k + 1)
        && Translating(segs, language, target, override, translate, k).failure.None?
    decreases n
  {
    var prev := Translating(segs, language, target, override, translate, n - 1);
    if prev.failure.Some? {
      TranslatingFailure(segs, language, target, override, translate, n - 1);
    }
  }

  /** Reports `r` count up through the first `n` segments, naming wanted ones only: each
      is from 1 to `n`, the segment there was wanted, and none is made twice. */
  predicate ReportsInOrder(r: seq<nat>, segs: seq<Segment>, target: string, override: bool, n: nat) {
    && (forall k :: 0 <= k < |r| ==> 1 <= r[k] <= n <= |segs| && Wanted(segs[r[k] - 1], target, override))
    && (forall k, l :: 0 <= k < l < |r| ==> r[k] < r[l])
  }

  /** The progress reports of the loop are in order. */
  lemma {:induction false} TranslatingReports(segs: seq<Segment>, language: string, target: string, override: bool,
                                              translate: Translator, n: nat)
    requires n <= |segs|
    ensures ReportsInOrder(Translating(segs, language, target, override, translate, n).reports, segs, target, override, n)
  {
    if n > 0 {
      TranslatingReports(segs, language, target, override, translate, n - 1);
      var prev := Translating(segs, language, target, override, translate, n - 1).reports;
      var r := Translating(segs, language, target, override, translate, n).reports;
      if r != prev {
        assert r == prev + [n] && Wanted(segs[n - 1], target, override);
        assert forall k :: 0 <= k < |prev| ==> r[k] == prev[k];
      }
    }
  }

  /** Segment `j` (counted from 1) is reported exactly when it was wanted and the loop got
      past it without a failure: every translation stored is reported, and neither a
      skipped segment nor the one whose translation failed is. */
  lemma {:induction false} TranslatingReported(segs: seq<Segment>, language: string, target: string, override: bool,
                                               translate: Translator, n: nat, j: nat)
    requires 1 <= j <= n <= |segs|
    ensures j in Translating(segs, language, target, override, translate, n).reports
      <==> Wanted(segs[j - 1], target, override) && Translating(segs, language, target, override, translate, j).failure.None?
  {
    var prev := Translating(segs, language, target, override, translate, n - 1);
    var r := Translating(segs, language, target, override, translate, n).reports;
    TranslatingReports(segs, language, target, override, translate, n - 1);
    assert r == prev.reports || r == prev.reports + [n];
    if j < n {
      TranslatingReported(segs, language, target, override, translate, n - 1, j);
      assert j in r <==> j in prev.reports;
    } else {
      assert n !in prev.reports;
    }
  }

  /** After a failure the loop does nothing more. */
  lemma {:induction false} TranslatingStops(segs: seq<Segment>, language: string, target: string, override: bool,
                                           translate: Translator, k: nat, n: nat)
    requires k <= n <= |segs|
    requires Translating(segs, language, target, override, translate, k).failure.Some?
    ensures Translating(segs, language, target, override, translate, n) == Translating(segs, language, target, override, translate, k)
    decreases n
  {
    if k < n {
      TranslatingStops(segs, language, target, override, translate, k, n - 1);
    }
  }

  /** The translation loop. */
  method TranslateAll(segs: seq<Segment>, language: string, target: string, override: bool, translate: Translator)
    returns (p: Progress)
    ensures p == Translating(segs, language, target, override, translate, |segs|)
  {
    var segments := segs;
    var reports: seq<nat> := [];
    for index := 0 to |segs|
      invariant Translating(segs, language, target, override, translate, index) == Progress(segments, None, reports)
    {
      var segment := segs[index];
      TranslatingUntouched(segs, language, target, override, translate, index, index);
      if !override && target in segments[index].translations {
        continue;
      }
      var answer := translate(segment.text, language, target);
      if answer.Err? {
        TranslatingStops(segs, language, target, override, translate, index + 1, |segs|);
        return Progress(segments, Some(answer.error), reports);
      }
      segments := segments[index := segments[index].(translations := segments[index].translations[target := answer.value])];
      reports := reports + [index + 1];
    }
    p := Progress(segments, None, reports);
  }
}
