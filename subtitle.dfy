/**
 * subtitle.go: `optimizeIntervals`, the single pass that closes or evens out the gaps
 * between consecutive cues. The style and metadata presets of that file are constant
 * configuration of the subtitle writer and are not modelled, except the identifier of the
 * default style, which the subtitle builder uses.
 */
module Subtitle {
  import opened Wrappers
  import opened Segments

  /** Identifier of `SSADefaultStyle`. */
  const DefaultStyleId := "Default"

  /** Gaps up to this many milliseconds are closed. */
  const SnapGap := 500
  /** Gaps up to this many milliseconds are evened out to `Lead`. */
  const ShortGap := 1800
  /** How far a cue after a gap is moved earlier. */
  const Lead := 300
  /** How far a cue before a long gap is extended. */
  const Extend := 1500

  /** The start of cue `k` after the pass; it depends only on the original times. */
  function NewStart(items: seq<Cue>, k: nat): int
    requires k < |items|
  {
    if k == 0 || items[k].startAt == items[k - 1].endAt then items[k].startAt
    else if items[k].startAt - items[k - 1].endAt <= SnapGap then items[k].startAt
    else items[k].startAt - Lead
  }

  /** The end of cue `k` after the pass: decided when the next cue is visited. */
  function NewEnd(items: seq<Cue>, k: nat): int
    requires k < |items|
  {
    if k + 1 == |items| || items[k + 1].startAt == items[k].endAt then items[k].endAt
    else if items[k + 1].startAt - items[k].endAt <= SnapGap then items[k + 1].startAt
    else if items[k + 1].startAt - items[k].endAt <= ShortGap then items[k + 1].startAt - Lead - Lead
    else items[k].endAt + Extend
  }

  /** The cues after `optimizeIntervals`. */
  function Optimized(items: seq<Cue>): (r: seq<Cue>)
    ensures |r| == |items|
  {
    seq(|items|, k requires 0 <= k < |items| =>
      items[k].(startAt := NewStart(items, k), endAt := NewEnd(items, k)))
  }

  /** The cues once `optimizeIntervals` has visited the first `n` of them: visiting cue `k`
      writes its start and the end of cue `k - 1`. */
  ghost function Visited(items: seq<Cue>, n: nat, k: nat): Cue
    requires k < |items|
  {
    items[k].(startAt := if k < n then NewStart(items, k) else items[k].startAt,
              endAt := if k + 1 < n then NewEnd(items, k) else items[k].endAt)
  }

  /** `optimizeIntervals`, in place. Cue `k`'s start is written only when `k` is visited
      and its end only when `k + 1` is, so every decision reads original times. */
  method OptimizeIntervals(items: array<Cue>)
    modifies items
    ensures items[..] == Optimized(old(items[..]))
  {
    ghost var orig := items[..];
    for index := 0 to items.Length
      invariant forall k :: 0 <= k < items.Length ==> items[k] == Visited(orig, index, k)
    {
      if index == 0 || items[index].startAt == items[index - 1].endAt {
        continue;
      }
      var item := items[index];
      var diff := item.startAt - items[index - 1].endAt;
      ghost var before := items[..];
      if diff <= SnapGap {
        items[index - 1] := items[index - 1].(endAt := item.startAt);
      } else if diff <= ShortGap {
        item := item.(startAt := item.startAt - Lead);
        items[index] := item;
        items[index - 1] := items[index - 1].(endAt := item.startAt - Lead);
      } else {
        item := item.(startAt := item.startAt - Lead);
        items[index] := item;
        items[index - 1] := items[index - 1].(endAt := items[index - 1].endAt + Extend);
      }
      assert items[index] == Visited(orig, index + 1, index);
      assert items[index - 1] == Visited(orig, index + 1, index - 1);
      assert forall k :: 0 <= k < items.Length && k != index && k != index - 1 ==>
        items[k] == before[k] && Visited(orig, index, k) == Visited(orig, index + 1, k);
    }
    assert forall k :: 0 <= k < items.Length ==> items[k] == Optimized(orig)[k];
  }

  /** The pass moves times only: count, order, texts, styles and layers are kept. */
  lemma OptimizedKeeps(items: seq<Cue>)
    ensures var r := Optimized(items);
      && |r| == |items|
      && forall k :: 0 <= k < |items| ==>
        r[k].text == items[k].text && r[k].style == items[k].style && r[k].layer == items[k].layer
  {
  }

  /** The first start and the last end are never moved. */
  lemma OptimizedBounds(items: seq<Cue>)
    requires |items| > 0
    ensures Optimized(items)[0].startAt == items[0].startAt
    ensures Optimized(items)[|items| - 1].endAt == items[|items| - 1].endAt
  {
  }

  /** The gap the pass leaves between cue `k - 1` and cue `k`, given the original gap. */
  function GapLeft(diff: int): (g: int)
    ensures g >= 0
    ensures diff <= SnapGap ==> g == 0
    ensures SnapGap < diff <= ShortGap ==> g == Lead
    ensures ShortGap < diff ==> g == diff - Lead - Extend
  {
    if diff <= SnapGap then 0 else if diff <= ShortGap then Lead else diff - Lead - Extend
  }

  /** After the pass consecutive cues never overlap: cues that touched still touch, gaps up
      to 500 ms (and overlaps) are closed, gaps up to 1800 ms become exactly 300 ms, and
      longer gaps shrink by 1800 ms. */
  lemma OptimizedGaps(items: seq<Cue>, k: nat)
    requires 0 < k < |items|
    ensures var r := Optimized(items);
      var diff := items[k].startAt - items[k - 1].endAt;
      && (diff == 0 ==> r[k].startAt == items[k].startAt && r[k - 1].endAt == items[k - 1].endAt)
      && r[k].startAt - r[k - 1].endAt == GapLeft(diff)
      && r[k - 1].endAt <= r[k].startAt
  {
  }

  /** Cues that already follow one another without gaps are left as they are. */
  lemma OptimizedContiguous(items: seq<Cue>)
    requires forall k :: 0 < k < |items| ==> items[k].startAt == items[k - 1].endAt
    ensures Optimized(items) == items
  {
    assert forall k :: 0 <= k < |items| ==> Optimized(items)[k] == items[k];
  }

  /** A second pass can move cues again: a one-second gap becomes 300 ms after one pass
      (both cues move) and is closed by a second. */
  lemma OptimizedNotIdempotent()
    ensures var once := Optimized([Cue(0, 1000, "a", None, 0), Cue(2000, 3000, "b", None, 0)]);
      && once == [Cue(0, 1400, "a", None, 0), Cue(1700, 3000, "b", None, 0)]
      && Optimized(once) == [Cue(0, 1700, "a", None, 0), Cue(1700, 3000, "b", None, 0)]
  {
    var s := [Cue(0, 1000, "a", None, 0), Cue(2000, 3000, "b", None, 0)];
    var once := [Cue(0, 1400, "a", None, 0), Cue(1700, 3000, "b", None, 0)];
    assert Optimized(s) == once;
    assert Optimized(once) == [Cue(0, 1700, "a", None, 0), Cue(1700, 3000, "b", None, 0)];
  }
}
