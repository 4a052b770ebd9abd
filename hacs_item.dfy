/** `__getitem__` of the HACS dataset, without the feature I/O: the choice of the feature grid
    (stride, frames per cell, feature length) for the three feature layouts, the conversion of
    the annotated segments from seconds to grid units, and the training-time filter that drops
    actions outside the feature map and truncates the others onto it. */
module HacsItem {
  import opened Wrappers
  import opened Points
  import opened HacsDb
  import Postprocessing

  /** The dataset options `__getitem__` reads. A non-positive `featStride` means features of a
      fixed length per video. */
  datatype FeatConfig = FeatConfig(featStride: real, numFrames: real, downsampleRate: nat, maxSeqLen: nat,
                                   forceUpsampling: bool)

  /** The grid of one item: its stride and window in frames and the feature length `T` after
      down-sampling or resizing. */
  datatype Grid = Grid(featStride: real, numFrames: real, featLen: nat)

  /** `assert seq_len <= max_seq_len` failing, or a division by a zero length. */
  datatype GridError = SeqTooLong | ZeroLength

  /** The length of `feats[::rate]`. */
  function StridedLength(n: nat, rate: nat): (r: nat)
    requires rate > 0
    ensures n <= r * rate < n + rate
  {
    var a := n + (rate - 1);
    assert a == (a / rate) * rate + a % rate;
    a / rate
  }

  /** The three cases of `__getitem__` for a video of `numFeats` feature vectors; case 3 reads
      the duration and fps of the record. */
  function SelectGrid(cfg: FeatConfig, numFeats: nat, rec: Record): (r: Result<Grid, GridError>)
    // case 1: variable length, only down-sampled; the cells cover the input features
    ensures cfg.featStride > 0.0 && !cfg.forceUpsampling ==>
      r.Ok? && r.value.numFrames == cfg.numFrames
      && (cfg.downsampleRate <= 1 ==> r.value.featStride == cfg.featStride && r.value.featLen == numFeats)
      && (cfg.downsampleRate > 1 ==>
            r.value.featStride == cfg.featStride * cfg.downsampleRate as real
            && numFeats <= r.value.featLen * cfg.downsampleRate < numFeats + cfg.downsampleRate)
    // case 2: variable length resized to `max_seq_len`; the cells span the frames of the input
    ensures cfg.featStride > 0.0 && cfg.forceUpsampling ==>
      (r.Ok? <==> cfg.maxSeqLen > 0)
      && (r.Ok? ==>
            r.value.featLen == cfg.maxSeqLen && r.value.numFrames == r.value.featStride
            && r.value.featStride * cfg.maxSeqLen as real
               == (numFeats as real - 1.0) * cfg.featStride + cfg.numFrames)
    // case 3: fixed length; the cells span the whole video
    ensures cfg.featStride <= 0.0 ==>
      (r.Ok? <==> numFeats <= cfg.maxSeqLen && (if cfg.forceUpsampling then cfg.maxSeqLen else numFeats) > 0)
      && (r.Err? ==> r.error == if numFeats > cfg.maxSeqLen then SeqTooLong else ZeroLength)
      && (r.Ok? ==>
            r.value.featLen == (if cfg.forceUpsampling then cfg.maxSeqLen else numFeats)
            && r.value.numFrames == r.value.featStride
            && r.value.featStride * r.value.featLen as real == rec.duration * rec.fps)
  {
    if cfg.featStride > 0.0 && !cfg.forceUpsampling then
      if cfg.downsampleRate > 1 then
        Ok(Grid(cfg.featStride * cfg.downsampleRate as real, cfg.numFrames, StridedLength(numFeats, cfg.downsampleRate)))
      else
        Ok(Grid(cfg.featStride, cfg.numFrames, numFeats))
    else if cfg.featStride > 0.0 then
      if cfg.maxSeqLen == 0 then Err(ZeroLength)
      else
        var stride := ((numFeats as real - 1.0) * cfg.featStride + cfg.numFrames) / cfg.maxSeqLen as real;
        Ok(Grid(stride, stride, cfg.maxSeqLen))
    else if numFeats > cfg.maxSeqLen then Err(SeqTooLong)
    else
      var seqLen := if cfg.forceUpsampling then cfg.maxSeqLen else numFeats;
      if seqLen == 0 then Err(ZeroLength)
      else
        var stride := rec.duration * rec.fps / seqLen as real;
        Ok(Grid(stride, stride, seqLen))
  }

  /** `(s * fps - 0.5 * num_frames) / feat_stride`: a time in seconds on the feature grid. */
  function SecondsToGrid(s: real, fps: real, g: Grid): real
    requires g.featStride != 0.0
  {
    (s * fps - 0.5 * g.numFrames) / g.featStride
  }

  /** The conversion of `__getitem__` and the one of `postprocessing` are inverse to each other,
      in both directions, for the same fps, stride and window. */
  lemma GridSecondsInverse(s: real, x: real, fps: real, g: Grid)
    requires fps != 0.0 && g.featStride != 0.0
    ensures Postprocessing.GridToSeconds(SecondsToGrid(s, fps, g), g.featStride, g.numFrames, fps) == s
    ensures SecondsToGrid(Postprocessing.GridToSeconds(x, g.featStride, g.numFrames, fps), fps, g) == x
  {
    var y := SecondsToGrid(s, fps, g);
    assert y * g.featStride == s * fps - 0.5 * g.numFrames;
    var u := Postprocessing.GridToSeconds(x, g.featStride, g.numFrames, fps);
    assert u * fps == x * g.featStride + 0.5 * g.numFrames;
  }

  /** A time inside the video that goes onto the grid and back, through the truncation of
      `postprocessing`, comes back unchanged. */
  lemma TimeRoundTrip(s: real, fps: real, g: Grid, duration: real)
    requires fps != 0.0 && g.featStride != 0.0
    requires 0.0 <= s <= duration
    ensures Postprocessing.TruncateBoundary(
              Postprocessing.GridToSeconds(SecondsToGrid(s, fps, g), g.featStride, g.numFrames, fps), duration) == s
  {
    GridSecondsInverse(s, 0.0, fps, g);
  }

  function SegmentToGrid(seg: Segment, fps: real, g: Grid): Segment
    requires g.featStride != 0.0
  {
    Segment(SecondsToGrid(seg.start, fps, g), SecondsToGrid(seg.end, fps, g))
  }

  function SegmentsToGrid(segs: seq<Segment>, fps: real, g: Grid): (r: seq<Segment>)
    requires g.featStride != 0.0
    ensures |r| == |segs| && forall i :: 0 <= i < |segs| ==> r[i] == SegmentToGrid(segs[i], fps, g)
  {
    seq(|segs|, i requires 0 <= i < |segs| => SegmentToGrid(segs[i], fps, g))
  }

  /** Every converted segment goes back to the annotated one under the conversion of
      `postprocessing`, for the same fps and grid. */
  lemma SegmentsRoundTrip(segs: seq<Segment>, fps: real, g: Grid)
    requires fps != 0.0 && g.featStride != 0.0
    ensures forall i :: 0 <= i < |segs| ==>
      Postprocessing.ConvertSegment(SegmentsToGrid(segs, fps, g)[i], g.featStride, g.numFrames, fps) == segs[i]
  {
    forall i | 0 <= i < |segs|
      ensures Postprocessing.ConvertSegment(SegmentsToGrid(segs, fps, g)[i], g.featStride, g.numFrames, fps) == segs[i]
    {
      GridSecondsInverse(segs[i].start, 0.0, fps, g);
      GridSecondsInverse(segs[i].end, 0.0, fps, g);
    }
  }

  /** `clamp(min=0, max=feat_len)` of one boundary. */
  function ClampToMap(x: real, featLen: nat): (r: real)
    ensures 0.0 <= r <= featLen as real
    ensures 0.0 <= x <= featLen as real ==> r == x
  {
    Min(Max(x, 0.0), featLen as real)
  }

  function ClampSegment(seg: Segment, featLen: nat): Segment
  {
    Segment(ClampToMap(seg.start, featLen), ClampToMap(seg.end, featLen))
  }

  /** Positions, among the first `n` pairs of `zip(segments, labels)`, of the actions that start
      inside the feature map, in increasing order. */
  function KeptIndices(segs: seq<Segment>, featLen: nat, n: nat): (r: seq<nat>)
    requires n <= |segs|
    ensures forall i :: 0 <= i < |r| ==> r[i] < n && segs[r[i]].start < featLen as real
    ensures forall i, j :: 0 <= i < j < |r| ==> r[i] < r[j]
    decreases n
  {
    if n == 0 then []
    else
      var prev := KeptIndices(segs, featLen, n - 1);
      if segs[n - 1].start < featLen as real then prev + [n - 1] else prev
  }

  /** The truncated segments the loop collects from the first `n` pairs. */
  function KeptSegments(segs: seq<Segment>, featLen: nat, n: nat): seq<Segment>
    requires n <= |segs|
    decreases n
  {
    if n == 0 then []
    else
      var prev := KeptSegments(segs, featLen, n - 1);
      if segs[n - 1].start < featLen as real then prev + [ClampSegment(segs[n - 1], featLen)] else prev
  }

  /** The labels the loop collects from the first `n` pairs. */
  function KeptLabels(segs: seq<Segment>, labels: seq<int>, featLen: nat, n: nat): seq<int>
    requires n <= |segs| && n <= |labels|
    decreases n
  {
    if n == 0 then []
    else
      var prev := KeptLabels(segs, labels, featLen, n - 1);
      if segs[n - 1].start < featLen as real then prev + [labels[n - 1]] else prev
  }

  /** The training-time filter: both `None` when nothing is kept, else the truncated segments
      and their labels. */
  function TrainingFilter(segs: seq<Segment>, labels: seq<int>, featLen: nat): (Option<seq<Segment>>, Option<seq<int>>)
  {
    var n := if |segs| <= |labels| then |segs| else |labels|;
    var ks := KeptSegments(segs, featLen, n);
    if |ks| == 0 then (None, None) else (Some(ks), Some(KeptLabels(segs, labels, featLen, n)))
  }

  /** The collected lists are the truncated segments and the labels at the kept positions. */
  lemma KeptAt(segs: seq<Segment>, labels: seq<int>, featLen: nat, n: nat)
    requires n <= |segs| && n <= |labels|
    ensures var idx := KeptIndices(segs, featLen, n);
      |KeptSegments(segs, featLen, n)| == |KeptLabels(segs, labels, featLen, n)| == |idx|
      && (forall j :: 0 <= j < |idx| ==> KeptSegments(segs, featLen, n)[j] == ClampSegment(segs[idx[j]], featLen))
      && (forall j :: 0 <= j < |idx| ==> KeptLabels(segs, labels, featLen, n)[j] == labels[idx[j]])
  {
    KeptSegmentsAt(segs, featLen, n);
    KeptLabelsAt(segs, labels, featLen, n);
  }

  lemma {:induction false} KeptSegmentsAt(segs: seq<Segment>, featLen: nat, n: nat)
    requires n <= |segs|
    ensures var idx := KeptIndices(segs, featLen, n);
      |KeptSegments(segs, featLen, n)| == |idx|
      && forall j :: 0 <= j < |idx| ==> KeptSegments(segs, featLen, n)[j] == ClampSegment(segs[idx[j]], featLen)
    decreases n
  {
    if n > 0 {
      KeptSegmentsAt(segs, featLen, n - 1);
      var idx, ks := KeptIndices(segs, featLen, n - 1), KeptSegments(segs, featLen, n - 1);
      if segs[n - 1].start < featLen as real {
        var idx', ks' := idx + [n - 1], ks + [ClampSegment(segs[n - 1], featLen)];
        assert KeptIndices(segs, featLen, n) == idx';
        assert KeptSegments(segs, featLen, n) == ks';
        forall j | 0 <= j < |idx'|
          ensures ks'[j] == ClampSegment(segs[idx'[j]], featLen)
        {
          if j < |idx| {
            assert ks'[j] == ks[j] && idx'[j] == idx[j];
          }
        }
      } else {
        assert KeptIndices(segs, featLen, n) == idx;
        assert KeptSegments(segs, featLen, n) == ks;
      }
    }
  }

  lemma {:induction false} KeptLabelsAt(segs: seq<Segment>, labels: seq<int>, featLen: nat, n: nat)
    requires n <= |segs| && n <= |labels|
    ensures var idx := KeptIndices(segs, featLen, n);
      |KeptLabels(segs, labels, featLen, n)| == |idx|
      && forall j :: 0 <= j < |idx| ==> KeptLabels(segs, labels, featLen, n)[j] == labels[idx[j]]
    decreases n
  {
    if n > 0 {
      KeptLabelsAt(segs, labels, featLen, n - 1);
      var idx, kl := KeptIndices(segs, featLen, n - 1), KeptLabels(segs, labels, featLen, n - 1);
      if segs[n - 1].start < featLen as real {
        var idx', kl' := idx + [n - 1], kl + [labels[n - 1]];
        assert KeptIndices(segs, featLen, n) == idx';
        assert KeptLabels(segs, labels, featLen, n) == kl';
        forall j | 0 <= j < |idx'|
          ensures kl'[j] == labels[idx'[j]]
        {
          if j < |idx| {
            assert kl'[j] == kl[j] && idx'[j] == idx[j];
          }
        }
      } else {
        assert KeptIndices(segs, featLen, n) == idx;
        assert KeptLabels(segs, labels, featLen, n) == kl;
      }
    }
  }

  /** Both outputs are `None` exactly when no action starts inside the feature map; otherwise
      they are aligned, no longer than the input, and every kept boundary lies on the map. */
  lemma TrainingFilterMeaning(segs: seq<Segment>, labels: seq<int>, featLen: nat)
    ensures var n := if |segs| <= |labels| then |segs| else |labels|;
      var r := TrainingFilter(segs, labels, featLen);
      (r.0.None? <==> forall k :: 0 <= k < n ==> segs[k].start >= featLen as real)
      && r.1.None? == r.0.None?
      && (r.0.Some? ==>
            r.1.Some? && |r.0.value| == |r.1.value| <= n
            && forall i :: 0 <= i < |r.0.value| ==>
                 0.0 <= r.0.value[i].start <= featLen as real && 0.0 <= r.0.value[i].end <= featLen as real)
  {
    var n := if |segs| <= |labels| then |segs| else |labels|;
    var idx := KeptIndices(segs, featLen, n);
    KeptAt(segs, labels, featLen, n);
    KeptCount(segs, featLen, n);
    KeptComplete(segs, featLen, n);
    if |idx| > 0 {
      assert segs[idx[0]].start < featLen as real;
    }
  }

  lemma {:induction false} KeptCount(segs: seq<Segment>, featLen: nat, n: nat)
    requires n <= |segs|
    ensures |KeptIndices(segs, featLen, n)| <= n
    decreases n
  {
    if n > 0 {
      KeptCount(segs, featLen, n - 1);
    }
  }

  /** No action that starts inside the feature map is dropped. */
  lemma {:induction false} KeptComplete(segs: seq<Segment>, featLen: nat, n: nat)
    requires n <= |segs|
    ensures forall k :: 0 <= k < n && segs[k].start < featLen as real ==> k in KeptIndices(segs, featLen, n)
    decreases n
  {
    if n > 0 {
      KeptComplete(segs, featLen, n - 1);
    }
  }

  /** The kept actions keep their labels: the `i`-th output pair is the truncation of the
      `k`-th input segment together with the `k`-th label, for the `k`-th position kept. */
  lemma TrainingFilterAligned(segs: seq<Segment>, labels: seq<int>, featLen: nat, i: nat)
    requires TrainingFilter(segs, labels, featLen).0.Some?
    requires i < |TrainingFilter(segs, labels, featLen).0.value|
    ensures var r := TrainingFilter(segs, labels, featLen);
      r.1.Some? && i < |r.1.value|
      && (exists k :: 0 <= k < |segs| && k < |labels| && segs[k].start < featLen as real
            && r.0.value[i] == ClampSegment(segs[k], featLen) && r.1.value[i] == labels[k])
  {
    var n := if |segs| <= |labels| then |segs| else |labels|;
    KeptAt(segs, labels, featLen, n);
    var k := KeptIndices(segs, featLen, n)[i];
    assert k < n;
  }

  /** Every action that starts inside the feature map is kept, truncated, with its label. */
  lemma TrainingFilterKeeps(segs: seq<Segment>, labels: seq<int>, featLen: nat, k: nat)
    requires k < |segs| && k < |labels| && segs[k].start < featLen as real
    ensures var r := TrainingFilter(segs, labels, featLen);
      r.0.Some? && r.1.Some?
      && exists i :: 0 <= i < |r.0.value| && i < |r.1.value|
           && r.0.value[i] == ClampSegment(segs[k], featLen) && r.1.value[i] == labels[k]
  {
    var n := if |segs| <= |labels| then |segs| else |labels|;
    var idx := KeptIndices(segs, featLen, n);
    KeptAt(segs, labels, featLen, n);
    KeptComplete(segs, featLen, n);
    var i :| 0 <= i < |idx| && idx[i] == k;
    var r := TrainingFilter(segs, labels, featLen);
    assert r.0.value[i] == ClampSegment(segs[k], featLen);
  }

  /** The loop of `__getitem__` over `zip(segments, labels)` for training items. */
  method FilterTrainingSegments(segs: seq<Segment>, labels: seq<int>, featLen: nat)
    returns (outSegs: Option<seq<Segment>>, outLabels: Option<seq<int>>)
    ensures (outSegs, outLabels) == TrainingFilter(segs, labels, featLen)
  {
    var n := if |segs| <= |labels| then |segs| else |labels|;
    var segList: seq<Segment> := [];
    var labelList: seq<int> := [];
    var i := 0;
    while i < n
      invariant 0 <= i <= n
      invariant segList == KeptSegments(segs, featLen, i)
      invariant labelList == KeptLabels(segs, labels, featLen, i)
    {
      if segs[i].start < featLen as real {
        segList := segList + [ClampSegment(segs[i], featLen)];
        labelList := labelList + [labels[i]];
      }
      i := i + 1;
    }
    if |segList| == 0 {
      outSegs, outLabels := None, None;
    } else {
      outSegs, outLabels := Some(segList), Some(labelList);
    }
  }

  /** The targets of one item: `None` without annotations, else the segments on the grid (with
      the record's own fps) and their labels, filtered for training items. */
  function ItemTargets(rec: Record, g: Grid, isTraining: bool): (r: (Option<seq<Segment>>, Option<seq<int>>))
    requires g.featStride != 0.0
    requires rec.segments.Some? ==> rec.labels.Some?
    ensures rec.segments.None? ==> r == (None, None)
    ensures rec.segments.Some? && !isTraining ==>
      r.0 == Some(SegmentsToGrid(rec.segments.value, rec.fps, g)) && r.1 == rec.labels
    ensures rec.segments.Some? && isTraining ==>
      r == TrainingFilter(SegmentsToGrid(rec.segments.value, rec.fps, g), rec.labels.value, g.featLen)
  {
    match rec.segments
    case None => (None, None)
    case Some(segs) =>
      var gridSegs := SegmentsToGrid(segs, rec.fps, g);
      if isTraining then TrainingFilter(gridSegs, rec.labels.value, g.featLen)
      else (Some(gridSegs), rec.labels)
  }

  /** What an evaluation item carries: one grid segment per annotation, each mapping back to
      its annotation under the conversion of `postprocessing`, with the record's labels. */
  lemma EvalItemTargets(rec: Record, g: Grid)
    requires g.featStride != 0.0 && rec.fps != 0.0
    requires rec.segments.Some? && rec.labels.Some?
    ensures var r := ItemTargets(rec, g, false);
      r.0.Some? && |r.0.value| == |rec.segments.value| && r.1 == rec.labels
      && forall i :: 0 <= i < |r.0.value| ==>
        Postprocessing.ConvertSegment(r.0.value[i], g.featStride, g.numFrames, rec.fps) == rec.segments.value[i]
  {
    SegmentsRoundTrip(rec.segments.value, rec.fps, g);
  }

  /** What a training item carries: nothing exactly when no annotation starts on the feature
      map; otherwise aligned segments and labels, every boundary in `[0, feat_len]`, and each
      pair the truncated grid segment of some annotation together with that annotation's label. */
  lemma TrainingItemTargets(rec: Record, g: Grid)
    requires g.featStride != 0.0
    requires rec.segments.Some? && rec.labels.Some?
    ensures var segs, labels := rec.segments.value, rec.labels.value;
      var n := if |segs| <= |labels| then |segs| else |labels|;
      var r := ItemTargets(rec, g, true);
      (r.0.None? <==> forall k :: 0 <= k < n ==> SecondsToGrid(segs[k].start, rec.fps, g) >= g.featLen as real)
      && r.1.None? == r.0.None?
      && (r.0.Some? ==> r.1.Some? && |r.0.value| == |r.1.value| <= n)
      && (r.0.Some? ==> forall i :: 0 <= i < |r.0.value| ==>
            0.0 <= r.0.value[i].start <= g.featLen as real && 0.0 <= r.0.value[i].end <= g.featLen as real)
      && (r.0.Some? ==> forall i :: 0 <= i < |r.0.value| ==>
            exists k :: (0 <= k < n && r.0.value[i] == ClampSegment(SegmentToGrid(segs[k], rec.fps, g), g.featLen)
              && r.1.value[i] == labels[k]))
  {
    var segs, labels := rec.segments.value, rec.labels.value;
    var gridSegs := SegmentsToGrid(segs, rec.fps, g);
    TrainingFilterMeaning(gridSegs, labels, g.featLen);
    var r := TrainingFilter(gridSegs, labels, g.featLen);
    if r.0.Some? {
      forall i | 0 <= i < |r.0.value|
        ensures exists k :: (0 <= k < |segs| && k < |labels|
          && r.0.value[i] == ClampSegment(SegmentToGrid(segs[k], rec.fps, g), g.featLen) && r.1.value[i] == labels[k])
      {
        TrainingFilterAligned(gridSegs, labels, g.featLen, i);
      }
    }
  }
}
