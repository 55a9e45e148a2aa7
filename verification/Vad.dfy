/** Batch speech segmentation: contiguous speech frames, short gaps merged, sliced out of the audio. */
module Vad {
  const FRAME_SAMPLES := 480
  const SAMPLE_RATE := 16_000
  const MAX_MERGE_GAP := 10

  /** Frames `begin <= k < end`. */
  datatype Range = Range(begin: nat, end: nat)

  predicate AllSpeech(labels: seq<bool>, r: Range) {
    r.begin < r.end <= |labels| && forall k :: r.begin <= k < r.end ==> labels[k]
  }

  predicate Covered(ranges: seq<Range>, k: nat) {
    exists i :: 0 <= i < |ranges| && ranges[i].begin <= k < ranges[i].end
  }

  /** The speech runs of the first `n` frames, in order, with silence between them. */
  predicate Runs(labels: seq<bool>, ranges: seq<Range>, n: nat) {
    && n <= |labels|
    && (forall i :: 0 <= i < |ranges| ==> AllSpeech(labels, ranges[i]) && ranges[i].end <= n)
    && (forall i, j :: 0 <= i < j < |ranges| ==> ranges[i].end < ranges[j].begin)
    && (forall k {:trigger Covered(ranges, k)} :: 0 <= k < n && labels[k] ==> Covered(ranges, k))
  }

  /** Speech at `k` or within ten frames after it. */
  predicate SpeechSoon(labels: seq<bool>, k: nat) {
    exists j :: k <= j < |labels| && j <= k + 10 && labels[j]
  }

  /** Starts and ends on speech, with no silence inside longer than ten frames. */
  predicate Solid(labels: seq<bool>, r: Range) {
    && r.begin < r.end <= |labels| && labels[r.begin] && labels[r.end - 1]
    && forall k :: r.begin <= k && k + 10 < r.end ==> SpeechSoon(labels, k)
  }

  /** In order, with more than ten frames of silence between neighbours. */
  predicate WideGaps(ranges: seq<Range>) {
    forall i, j :: 0 <= i < j < |ranges| ==> ranges[i].end + 10 < ranges[j].begin
  }

  /** The segmentation of the frames from `from` on. */
  predicate Segments(labels: seq<bool>, from: nat, ranges: seq<Range>) {
    && (forall i :: 0 <= i < |ranges| ==> Solid(labels, ranges[i]) && from <= ranges[i].begin)
    && WideGaps(ranges)
    && forall k {:trigger Covered(ranges, k)} :: from <= k < |labels| && labels[k] ==> Covered(ranges, k)
  }

  // ---------------------------------------------------------------- uniqueness

  /** Two segmentations start with the same range. */
  lemma SameFirst(labels: seq<bool>, from: nat, a: seq<Range>, b: seq<Range>)
    requires Segments(labels, from, a) && Segments(labels, from, b) && a != []
    ensures b != [] && a[0] == b[0]
  {
    assert Covered(b, a[0].begin);
    assert Covered(a, b[0].begin);
    SameBegin(labels, from, a, b);
    SameBegin(labels, from, b, a);
    EndsNoLater(labels, from, a, b);
    EndsNoLater(labels, from, b, a);
  }

  lemma SameBegin(labels: seq<bool>, from: nat, a: seq<Range>, b: seq<Range>)
    requires Segments(labels, from, a) && Segments(labels, from, b) && a != [] && b != []
    ensures b[0].begin <= a[0].begin
  {
    assert Covered(b, a[0].begin);
    var i :| 0 <= i < |b| && b[i].begin <= a[0].begin < b[i].end;
    assert i == 0 || b[0].end + MAX_MERGE_GAP < b[i].begin;
  }

  /** A range cannot end inside another one's first: the silence after it would be too long to be inside. */
  lemma EndsNoLater(labels: seq<bool>, from: nat, a: seq<Range>, b: seq<Range>)
    requires Segments(labels, from, a) && Segments(labels, from, b) && a != [] && b != []
    requires a[0].begin == b[0].begin
    ensures b[0].end <= a[0].end
  {
    var silence := a[0].end;
    forall k | silence <= k <= silence + MAX_MERGE_GAP && k < |labels| ensures !labels[k] {
      assert labels[k] ==> Covered(a, k);
    }
    assert !SpeechSoon(labels, silence);
    assert labels[b[0].end - 1];
  }

  lemma RestSegments(labels: seq<bool>, from: nat, a: seq<Range>)
    requires Segments(labels, from, a) && a != []
    ensures Segments(labels, a[0].end, a[1..])
  {
    forall k | a[0].end <= k < |labels| && labels[k] ensures Covered(a[1..], k) {
      assert Covered(a, k);
      var i :| 0 <= i < |a| && a[i].begin <= k < a[i].end;
      assert a[1..][i - 1] == a[i];
    }
  }

  /** There is only one segmentation of any label sequence. */
  lemma {:induction false} SegmentationIsUnique(labels: seq<bool>, from: nat, a: seq<Range>, b: seq<Range>)
    requires Segments(labels, from, a) && Segments(labels, from, b)
    ensures a == b
    decreases |a| + |b|
  {
    if a != [] || b != [] {
      if a != [] { SameFirst(labels, from, a, b); } else { SameFirst(labels, from, b, a); }
      RestSegments(labels, from, a);
      RestSegments(labels, from, b);
      SegmentationIsUnique(labels, a[0].end, a[1..], b[1..]);
      assert a == [a[0]] + a[1..] && b == [b[0]] + b[1..];
    }
  }

  // ---------------------------------------------------------------- the loops

  method GroupSpeech(labels: seq<bool>) returns (ranges: seq<Range>)
    ensures Runs(labels, ranges, |labels|)
  {
    ranges := [];
    var start: int := -1;
    for i := 0 to |labels|
      invariant -1 <= start < i || start == -1
      invariant start == -1 ==> Runs(labels, ranges, i) && (i > 0 ==> !labels[i - 1])
      invariant start >= 0 ==>
                  && Runs(labels, ranges, start) && AllSpeech(labels, Range(start, i))
                  && (start > 0 ==> !labels[start - 1])
    {
      if start < 0 && labels[i] {
        start := i;
      } else if start >= 0 && !labels[i] {
        RunEnds(labels, ranges, start, i);
        ranges := ranges + [Range(start, i)];
        start := -1;
      }
    }
    if start >= 0 {
      RunEnds(labels, ranges, start, |labels|);
      ranges := ranges + [Range(start, |labels|)];
    }
  }

  lemma RunEnds(labels: seq<bool>, ranges: seq<Range>, start: nat, end: nat)
    requires Runs(labels, ranges, start) && AllSpeech(labels, Range(start, end)) && (start > 0 ==> !labels[start - 1])
    ensures Runs(labels, ranges + [Range(start, end)], end)
    ensures end < |labels| && !labels[end] ==> Runs(labels, ranges + [Range(start, end)], end + 1)
  {
    var all := ranges + [Range(start, end)];
    forall i | 0 <= i < |ranges| ensures ranges[i].end < start {
      assert labels[ranges[i].end - 1];
    }
    forall k | 0 <= k < end && labels[k] ensures Covered(all, k) {
      if k < start {
        assert Covered(ranges, k);
        var i :| 0 <= i < |ranges| && ranges[i].begin <= k < ranges[i].end;
        assert all[i] == ranges[i];
      } else {
        assert all[|ranges|].begin <= k < all[|ranges|].end;
      }
    }
  }

  /** `saturating_sub` of the ends, compared with the merge gap. */
  predicate Near(previous: Range, next: Range) {
    next.begin <= previous.end + MAX_MERGE_GAP
  }

  function Merged(ranges: seq<Range>): (merged: seq<Range>)
    ensures merged == [] <==> ranges == []
    ensures ranges != [] ==> merged[|merged| - 1].end == ranges[|ranges| - 1].end
  {
    if ranges == [] then []
    else
      var prior, r := Merged(ranges[..|ranges| - 1]), ranges[|ranges| - 1];
      Joined(prior, r)
  }

  method MergeShortGaps(ranges: seq<Range>) returns (merged: seq<Range>)
    ensures merged == Merged(ranges)
  {
    merged := [];
    for i := 0 to |ranges|
      invariant merged == Merged(ranges[..i])
    {
      assert ranges[..i + 1][..i] == ranges[..i];
      var r := ranges[i];
      if |merged| > 0 && Near(merged[|merged| - 1], r) {
        merged := merged[|merged| - 1 := Range(merged[|merged| - 1].begin, r.end)];
      } else {
        merged := merged + [r];
      }
    }
    assert ranges[..|ranges|] == ranges;
  }

  predicate Apart(ranges: seq<Range>) {
    forall i :: 0 < i < |ranges| ==> !Near(ranges[i - 1], ranges[i])
  }

  lemma {:induction false} MergedIsApart(ranges: seq<Range>)
    ensures Apart(Merged(ranges))
  {
    if ranges != [] { MergedIsApart(ranges[..|ranges| - 1]); }
  }

  lemma {:induction false} ApartIsMerged(ranges: seq<Range>)
    requires Apart(ranges)
    ensures Merged(ranges) == ranges
  {
    if ranges != [] {
      ApartIsMerged(ranges[..|ranges| - 1]);
      assert ranges == ranges[..|ranges| - 1] + [ranges[|ranges| - 1]];
    }
  }

  /** Merging merged ranges changes nothing, for any ranges at all. */
  lemma MergeIsIdempotent(ranges: seq<Range>)
    ensures Merged(Merged(ranges)) == Merged(ranges)
  {
    MergedIsApart(ranges);
    ApartIsMerged(Merged(ranges));
  }

  // ---------------------------------------------------------------- the result

  lemma JoinIsSolid(labels: seq<bool>, a: Range, b: Range)
    requires Solid(labels, a) && AllSpeech(labels, b) && a.end <= b.begin && Near(a, b)
    ensures Solid(labels, Range(a.begin, b.end))
  {
    forall k | a.begin <= k && k + MAX_MERGE_GAP < b.end ensures SpeechSoon(labels, k) {
      if k + MAX_MERGE_GAP < a.end {
      } else if k < a.end {
        assert labels[a.end - 1];
      } else {
        assert labels[if k < b.begin then b.begin else k];
      }
    }
  }

  lemma RunIsSolid(labels: seq<bool>, r: Range)
    requires AllSpeech(labels, r)
    ensures Solid(labels, r)
  {
    forall k | r.begin <= k && k + MAX_MERGE_GAP < r.end ensures SpeechSoon(labels, k) {
      assert labels[k];
    }
  }

  predicate Inside(r: Range, merged: seq<Range>) {
    exists m :: 0 <= m < |merged| && merged[m].begin <= r.begin && r.end <= merged[m].end
  }

  /** Each merged range is solid, its gaps are wide, and no run falls out. */
  predicate MergesRuns(labels: seq<bool>, ranges: seq<Range>, merged: seq<Range>) {
    && (forall i :: 0 <= i < |merged| ==> Solid(labels, merged[i]))
    && WideGaps(merged)
    && forall r :: r in ranges ==> Inside(r, merged)
  }

  /** One turn of the merging loop. */
  function Joined(prior: seq<Range>, r: Range): seq<Range> {
    if prior != [] && Near(prior[|prior| - 1], r)
    then prior[|prior| - 1 := Range(prior[|prior| - 1].begin, r.end)] else prior + [r]
  }

  lemma JoinedSolid(labels: seq<bool>, prior: seq<Range>, r: Range)
    requires AllSpeech(labels, r) && (prior != [] ==> prior[|prior| - 1].end < r.begin)
    requires forall i :: 0 <= i < |prior| ==> Solid(labels, prior[i])
    ensures forall i :: 0 <= i < |Joined(prior, r)| ==> Solid(labels, Joined(prior, r)[i])
  {
    RunIsSolid(labels, r);
    if prior != [] && Near(prior[|prior| - 1], r) { JoinIsSolid(labels, prior[|prior| - 1], r); }
  }

  lemma JoinedGaps(prior: seq<Range>, r: Range)
    requires WideGaps(prior) && (prior != [] ==> prior[|prior| - 1].end < r.begin)
    requires forall i :: 0 <= i < |prior| ==> prior[i].begin < prior[i].end
    ensures WideGaps(Joined(prior, r))
  {
    forall i | 0 <= i < |prior| ensures prior[i].end <= prior[|prior| - 1].end {}
  }

  lemma JoinedInside(prior: seq<Range>, r: Range, q: Range)
    requires q == r || Inside(q, prior)
    requires prior != [] ==> prior[|prior| - 1].end < r.begin && prior[|prior| - 1].begin < prior[|prior| - 1].end
    requires r.begin < r.end
    ensures Inside(q, Joined(prior, r))
  {
    var merged := Joined(prior, r);
    if q == r {
      assert merged[|merged| - 1].begin <= r.begin && merged[|merged| - 1].end == r.end;
    } else {
      var m :| 0 <= m < |prior| && prior[m].begin <= q.begin && q.end <= prior[m].end;
      assert merged[m].begin == prior[m].begin && prior[m].end <= merged[m].end;
    }
  }

  lemma MergeOne(labels: seq<bool>, init: seq<Range>, r: Range, prior: seq<Range>)
    requires MergesRuns(labels, init, prior) && AllSpeech(labels, r)
    requires prior != [] ==> prior[|prior| - 1].end < r.begin
    ensures MergesRuns(labels, init + [r], Joined(prior, r))
  {
    JoinedSolid(labels, prior, r);
    JoinedGaps(prior, r);
    forall q | q in init + [r] ensures Inside(q, Joined(prior, r)) { JoinedInside(prior, r, q); }
  }

  lemma {:induction false} MergedRuns(labels: seq<bool>, ranges: seq<Range>)
    requires forall r :: r in ranges ==> AllSpeech(labels, r)
    requires forall i, j :: 0 <= i < j < |ranges| ==> ranges[i].end < ranges[j].begin
    ensures MergesRuns(labels, ranges, Merged(ranges))
  {
    if ranges != [] {
      var init, r := ranges[..|ranges| - 1], ranges[|ranges| - 1];
      assert ranges == init + [r];
      MergedRuns(labels, init);
      if init != [] { assert ranges[|init| - 1] == init[|init| - 1]; }
      MergeOne(labels, init, r, Merged(init));
    }
  }

  lemma MergedSegments(labels: seq<bool>, ranges: seq<Range>)
    requires Runs(labels, ranges, |labels|)
    ensures Segments(labels, 0, Merged(ranges))
  {
    MergedRuns(labels, ranges);
    forall k | 0 <= k < |labels| && labels[k] ensures Covered(Merged(ranges), k) {
      assert Covered(ranges, k);
      var i :| 0 <= i < |ranges| && ranges[i].begin <= k < ranges[i].end;
      assert Inside(ranges[i], Merged(ranges));
    }
  }

  function DurationMs(sampleCount: nat): nat { sampleCount * 1000 / SAMPLE_RATE }

  /** Sample `p` lies in the frames of a range. */
  predicate Hears(r: Range, p: nat) { r.begin * 480 <= p < r.end * 480 }

  /** The sample at `p` is in this slice, at its own place. */
  predicate HeardAt<T(==)>(samples: seq<T>, r: Range, slice: seq<T>, p: nat)
    requires p < |samples|
  {
    Hears(r, p) && p - r.begin * 480 < |slice| && slice[p - r.begin * 480] == samples[p]
  }

  /** Segmenting labelled audio: the result is the one segmentation of the labels, and every slice is the audio of its
      range, sample by sample, 480 samples and 30 milliseconds a frame. */
  method Segment<T(==)>(samples: seq<T>, labels: seq<bool>) returns (ghost ranges: seq<Range>, slices: seq<seq<T>>)
    requires |labels| == |samples| / 480
    ensures Segments(labels, 0, ranges)
    ensures |slices| == |ranges|
    ensures forall i :: 0 <= i < |ranges| ==>
              && ranges[i].begin < ranges[i].end && ranges[i].end * 480 <= |samples|
              && |slices[i]| == 480 * (ranges[i].end - ranges[i].begin)
              && DurationMs(|slices[i]|) == 30 * (ranges[i].end - ranges[i].begin)
    ensures forall i, k :: 0 <= i < |ranges| && 0 <= k < |slices[i]| ==>
              slices[i][k] == samples[ranges[i].begin * 480 + k]
  {
    var runs := GroupSpeech(labels);
    var merged := MergeShortGaps(runs);
    MergedSegments(labels, runs);
    ranges, slices := merged, [];
    for i := 0 to |merged|
      invariant |slices| == i && ranges == merged
      invariant forall j :: 0 <= j < i ==> IsSlice(samples, merged[j], slices[j])
    {
      assert Solid(labels, merged[i]);
      FrameArithmetic(|samples|, |labels|, merged[i].end, merged[i].end - merged[i].begin);
      var start := merged[i].begin * FRAME_SAMPLES;
      var end := if merged[i].end * FRAME_SAMPLES < |samples| then merged[i].end * FRAME_SAMPLES else |samples|;
      SlicedRange(samples, merged[i]);
      slices := slices + [samples[start..end]];
    }
    forall i, k | 0 <= i < |ranges| && 0 <= k < |slices[i]|
      ensures slices[i][k] == samples[ranges[i].begin * 480 + k]
    {
      assert IsSlice(samples, merged[i], slices[i]);
    }
  }

  /** The slice is the audio of the range. */
  predicate IsSlice<T(==)>(samples: seq<T>, r: Range, slice: seq<T>) {
    && r.begin < r.end && r.end * 480 <= |samples|
    && |slice| == 480 * (r.end - r.begin) && DurationMs(|slice|) == 30 * (r.end - r.begin)
    && forall k :: 0 <= k < |slice| ==> slice[k] == samples[r.begin * 480 + k]
  }

  lemma SlicedRange<T>(samples: seq<T>, r: Range)
    requires r.begin < r.end && r.end * FRAME_SAMPLES <= |samples|
    ensures IsSlice(samples, r, samples[r.begin * FRAME_SAMPLES..r.end * FRAME_SAMPLES])
  {
    FrameArithmetic(r.end * FRAME_SAMPLES, r.end, r.end, r.end - r.begin);
  }

  /** So every sample of a speech frame is heard in exactly one slice, at its own place. */
  lemma SpeechIsHeardOnce<T>(samples: seq<T>, labels: seq<bool>, ranges: seq<Range>, slices: seq<seq<T>>, p: nat)
    requires Segments(labels, 0, ranges) && |slices| == |ranges| && p < |samples| && p / 480 < |labels|
    requires forall i :: 0 <= i < |ranges| ==> IsSlice(samples, ranges[i], slices[i])
    requires labels[p / 480]
    ensures exists i :: 0 <= i < |ranges| && HeardAt(samples, ranges[i], slices[i], p) &&
                        forall j :: 0 <= j < |ranges| && Hears(ranges[j], p) ==> j == i
  {
    var frame := p / 480;
    assert Covered(ranges, frame);
    var i :| 0 <= i < |ranges| && ranges[i].begin <= frame < ranges[i].end;
    InFrame(ranges[i], p);
    assert IsSlice(samples, ranges[i], slices[i]);
    forall j | 0 <= j < |ranges| && Hears(ranges[j], p) ensures j == i {
      InFrame(ranges[j], p);
      assert !(i < j) && !(j < i);
    }
    assert HeardAt(samples, ranges[i], slices[i], p);
  }

  lemma InFrame(r: Range, p: nat)
    ensures Hears(r, p) <==> r.begin <= p / 480 < r.end
  {
  }

  lemma FrameArithmetic(samples: nat, frames: nat, end: nat, n: nat)
    requires frames == samples / FRAME_SAMPLES && end <= frames
    ensures end * FRAME_SAMPLES <= samples && DurationMs(FRAME_SAMPLES * n) == 30 * n
  {
    assert FRAME_SAMPLES * n * 1000 == 30 * n * SAMPLE_RATE;
  }
}
