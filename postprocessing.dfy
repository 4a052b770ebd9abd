/** Step 3 of `postprocessing`: detections on the feature grid are converted to seconds and
    every boundary is truncated into `[0, duration]` in place. NMS (step 2) is not modelled. */
module Postprocessing {
  import opened Points

  /** `(g * feat_stride + 0.5 * num_frames) / fps`. */
  function GridToSeconds(g: real, featStride: real, numFrames: real, fps: real): real
    requires fps != 0.0
  {
    (g * featStride + 0.5 * numFrames) / fps
  }

  /** The two masked assignments applied one after the other to one boundary: first
      `x <= 0` becomes 0, then (on the updated value) `x >= duration` becomes `duration`. */
  function TruncateBoundary(x: real, duration: real): (r: real)
    ensures duration >= 0.0 ==> 0.0 <= r <= duration
    ensures 0.0 < x < duration ==> r == x
    ensures duration >= 0.0 ==> r == Min(Max(x, 0.0), duration)
    ensures duration < 0.0 ==> r == duration
  {
    var y := if x <= 0.0 then 0.0 else x;
    if y >= duration then duration else y
  }

  /** Truncation is idempotent for a non-negative duration. */
  lemma TruncateIdempotent(x: real, duration: real)
    requires duration >= 0.0
    ensures TruncateBoundary(TruncateBoundary(x, duration), duration) == TruncateBoundary(x, duration)
  {
  }

  function ConvertSegment(g: Segment, featStride: real, numFrames: real, fps: real): Segment
    requires fps != 0.0
  {
    Segment(GridToSeconds(g.start, featStride, numFrames, fps), GridToSeconds(g.end, featStride, numFrames, fps))
  }

  /** The converted segments of one video, as a fresh buffer that the truncation then updates. */
  method ConvertToSeconds(segs: seq<Segment>, featStride: real, numFrames: real, fps: real, duration: real)
    returns (out: array<Segment>)
    requires fps != 0.0
    ensures fresh(out) && out.Length == |segs|
    ensures forall i :: 0 <= i < |segs| ==>
      var c := ConvertSegment(segs[i], featStride, numFrames, fps);
      out[i] == Segment(TruncateBoundary(c.start, duration), TruncateBoundary(c.end, duration))
  {
    out := new Segment[|segs|](i requires 0 <= i < |segs| => ConvertSegment(segs[i], featStride, numFrames, fps));
    TruncateInPlace(out, duration);
  }

  /** `segs[segs <= 0.0] *= 0.0` followed by `segs[segs >= vlen] = vlen`, in place. */
  method TruncateInPlace(a: array<Segment>, duration: real)
    modifies a
    ensures forall i :: 0 <= i < a.Length ==>
      a[i] == Segment(TruncateBoundary(old(a[i]).start, duration), TruncateBoundary(old(a[i]).end, duration))
  {
    var i := 0;
    while i < a.Length
      invariant 0 <= i <= a.Length
      invariant forall k :: 0 <= k < i ==>
        a[k] == Segment(Max(old(a[k]).start, 0.0), Max(old(a[k]).end, 0.0))
      invariant forall k :: i <= k < a.Length ==> a[k] == old(a[k])
    {
      var s := a[i];
      a[i] := Segment(if s.start <= 0.0 then 0.0 else s.start, if s.end <= 0.0 then 0.0 else s.end);
      i := i + 1;
    }
    i := 0;
    while i < a.Length
      invariant 0 <= i <= a.Length
      invariant forall k :: 0 <= k < i ==>
        a[k] == Segment(TruncateBoundary(old(a[k]).start, duration), TruncateBoundary(old(a[k]).end, duration))
      invariant forall k :: i <= k < a.Length ==>
        a[k] == Segment(Max(old(a[k]).start, 0.0), Max(old(a[k]).end, 0.0))
    {
      var s := a[i];
      a[i] := Segment(if s.start >= duration then duration else s.start, if s.end >= duration then duration else s.end);
      i := i + 1;
    }
  }
}
