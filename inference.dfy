/** Candidate selection of `inference_single_video`: per pyramid level, the flattened masked
    class probabilities are thresholded, sorted in descending order and cut to the top k; each
    flat index is split back into (point, class); the segment is rebuilt from the point and its
    decoded offsets; short segments are dropped; the levels are concatenated. */
module Inference {
  import opened Points
  import opened Arith

  /** Decoded offsets of one level: one pair per point (plain regression head, single label),
      one pair per point and class indexed `[pt, cls]` (multi-label), or one pair per class and
      point indexed `[cls, pt]` (the Trident head in single-label mode). */
  datatype OffsetTable =
    | Shared(perPoint: seq<Offsets>)
    | ByClass(perClass: seq<seq<Offsets>>)
    | ClassMajor(rows: seq<seq<Offsets>>)

  /** One pyramid level of one video: its points, its validity mask, the class probabilities
      (the sigmoid of the logits, given) and the decoded offsets. */
  datatype Level = Level(points: seq<Point>, mask: seq<bool>, probs: seq<seq<real>>, offsets: OffsetTable)

  datatype TestConfig = TestConfig(numClasses: nat, preNmsThresh: real, preNmsTopK: nat, durationThresh: real)

  /** A surviving flat index with its score. */
  datatype Candidate = Candidate(score: real, idx: nat)

  /** One output detection: a segment on the feature grid, its score and its class. */
  datatype Detection = Detection(seg: Segment, score: real, cls: nat)

  predicate WellShaped(lv: Level, numClasses: nat)
  {
    && |lv.mask| == |lv.points| && |lv.probs| == |lv.points|
    && (forall t :: 0 <= t < |lv.probs| ==> |lv.probs[t]| == numClasses)
    && match lv.offsets
       case Shared(o) => |o| == |lv.points|
       case ByClass(o) => |o| == |lv.points| && forall t :: 0 <= t < |o| ==> |o[t]| == numClasses
       case ClassMajor(o) => |o| == numClasses && forall c :: 0 <= c < |o| ==> |o[c]| == |lv.points|
  }

  /** `cls_i.sigmoid() * mask_i.unsqueeze(-1)` at (point, class). */
  function MaskedProb(lv: Level, numClasses: nat, t: nat, c: nat): real
    requires WellShaped(lv, numClasses) && t < |lv.points| && c < numClasses
  {
    if lv.mask[t] then lv.probs[t][c] else 0.0
  }

  /** The position of cell `(t, c)` in the row-major flattening of a table with `numClasses`
      columns. */
  function FlatIndex(t: nat, c: nat, numClasses: nat): nat
  {
    t * numClasses + c
  }

  /** The flat index of a cell of a `T x C` table is below `T * C`. */
  lemma FlatBound(t: nat, c: nat, numPoints: nat, numClasses: nat)
    requires t < numPoints && c < numClasses
    ensures t * numClasses + c < numPoints * numClasses
  {
    MulMono(t + 1, numPoints, numClasses);
    assert (t + 1) * numClasses == t * numClasses + numClasses;
  }

  /** The flat index of (point, class) in the row-major `T x C` layout is split back by
      floor division and remainder (`torch.div(..., rounding_mode='floor')`, `torch.fmod`). */
  lemma FlatIndexSplit(t: nat, c: nat, numClasses: nat)
    requires c < numClasses
    ensures (t * numClasses + c) / numClasses == t && (t * numClasses + c) % numClasses == c
  {
    var k := t * numClasses + c;
    var q, r := k / numClasses, k % numClasses;
    assert k == q * numClasses + r;
    if q < t {
      MulMono(q + 1, t, numClasses);
    } else if q > t {
      MulMono(t + 1, q, numClasses);
    }
  }

  /** A flat index in range recovers a point in range and a class below `num_classes`, and
      is `pt_idx * num_classes + cls_idx`. */
  lemma IndexRecovery(k: nat, numPoints: nat, numClasses: nat)
    requires numClasses > 0 && k < numPoints * numClasses
    ensures k == (k / numClasses) * numClasses + k % numClasses
    ensures k % numClasses < numClasses && k / numClasses < numPoints
  {
  }

  /** `.flatten()` of the masked probabilities. */
  function FlatScores(lv: Level, numClasses: nat): (s: seq<real>)
    requires WellShaped(lv, numClasses) && numClasses > 0
    ensures |s| == |lv.points| * numClasses
  {
    var n := |lv.points|;
    seq(n * numClasses, k requires 0 <= k < n * numClasses =>
      IndexRecovery(k, n, numClasses);
      MaskedProb(lv, numClasses, k / numClasses, k % numClasses))
  }

  /** Cell (t, c) of the table sits at flat position `t * num_classes + c`. */
  lemma FlatScoresAt(lv: Level, numClasses: nat, t: nat, c: nat)
    requires WellShaped(lv, numClasses) && numClasses > 0 && t < |lv.points| && c < numClasses
    ensures t * numClasses + c < |FlatScores(lv, numClasses)|
    ensures FlatScores(lv, numClasses)[t * numClasses + c] == MaskedProb(lv, numClasses, t, c)
  {
    FlatBound(t, c, |lv.points|, numClasses);
    FlatIndexSplit(t, c, numClasses);
  }

  /** `pred_prob[keep_idxs1]` paired with `keep_idxs1.nonzero()` over the first `n` flat
      indices: exactly the indices whose score is above `thresh`, in increasing order. */
  function PassingUpTo(scores: seq<real>, thresh: real, n: nat): (r: seq<Candidate>)
    requires n <= |scores|
    ensures forall i :: 0 <= i < |r| ==> r[i].idx < n && r[i].score == scores[r[i].idx] && r[i].score > thresh
    ensures forall i, j :: 0 <= i < j < |r| ==> r[i].idx < r[j].idx
    ensures forall k :: 0 <= k < n && scores[k] > thresh ==> Candidate(scores[k], k) in r
    ensures |r| <= n
    decreases n
  {
    if n == 0 then []
    else
      var prev := PassingUpTo(scores, thresh, n - 1);
      if scores[n - 1] > thresh then prev + [Candidate(scores[n - 1], n - 1)] else prev
  }

  function Passing(scores: seq<real>, thresh: real): seq<Candidate>
  {
    PassingUpTo(scores, thresh, |scores|)
  }

  predicate SortedDesc(cs: seq<Candidate>)
  {
    forall i, j :: 0 <= i < j < |cs| ==> cs[i].score >= cs[j].score
  }

  /** A head no smaller than anything in a sorted tail keeps the sequence sorted. */
  lemma SortedCons(a: Candidate, s: seq<Candidate>)
    requires SortedDesc(s) && forall y :: y in s ==> a.score >= y.score
    ensures SortedDesc([a] + s)
  {
    var r := [a] + s;
    forall i, j | 0 <= i < j < |r|
      ensures r[i].score >= r[j].score
    {
      if i > 0 {
        assert r[i] == s[i - 1] && r[j] == s[j - 1];
      } else {
        assert r[j] in s;
      }
    }
  }

  /** Inserts `x` before the first element it is not smaller than. */
  function Insert(x: Candidate, s: seq<Candidate>): (r: seq<Candidate>)
    requires SortedDesc(s)
    ensures |r| == |s| + 1
    ensures multiset(r) == multiset(s) + multiset{x}
    ensures SortedDesc(r)
    decreases |s|
  {
    if |s| == 0 || x.score >= s[0].score then
      InsertHead(x, s);
      [x] + s
    else
      var rest := Insert(x, s[1..]);
      assert s == [s[0]] + s[1..];
      InsertBehind(s[0], x, s[1..], rest);
      [s[0]] + rest
  }

  /** An element no smaller than the head of a sorted sequence can go in front of it. */
  lemma InsertHead(x: Candidate, s: seq<Candidate>)
    requires SortedDesc(s) && (|s| == 0 || x.score >= s[0].score)
    ensures SortedDesc([x] + s)
  {
    forall y | y in s
      ensures x.score >= y.score
    {
      var i :| 0 <= i < |s| && s[i] == y;
    }
    SortedCons(x, s);
  }

  /** A head larger than the inserted element and than the tail stays in front. */
  lemma InsertBehind(h: Candidate, x: Candidate, tail: seq<Candidate>, rest: seq<Candidate>)
    requires SortedDesc([h] + tail) && SortedDesc(rest) && h.score > x.score
    requires multiset(rest) == multiset(tail) + multiset{x}
    ensures SortedDesc([h] + rest)
  {
    forall y | y in rest
      ensures h.score >= y.score
    {
      assert y in multiset(rest);
      if y != x {
        assert y in multiset(tail);
        var i :| 0 <= i < |tail| && tail[i] == y;
        assert ([h] + tail)[0] == h && ([h] + tail)[i + 1] == y;
      }
    }
    SortedCons(h, rest);
  }

  /** `sort(descending=True)`: a permutation of the candidates in non-increasing score order.
      Torch does not fix the order of equal scores; this model keeps one fixed order. */
  function SortDescending(cs: seq<Candidate>): (r: seq<Candidate>)
    ensures |r| == |cs|
    ensures multiset(r) == multiset(cs) && SortedDesc(r)
    decreases |cs|
  {
    if |cs| == 0 then []
    else
      assert cs == [cs[0]] + cs[1..];
      Insert(cs[0], SortDescending(cs[1..]))
  }

  function MinNat(a: nat, b: nat): nat
  {
    if a <= b then a else b
  }

  /** Sequences with the same multiset have the same elements. */
  lemma SameElements(a: seq<Candidate>, b: seq<Candidate>)
    requires multiset(a) == multiset(b)
    ensures forall x :: x in a <==> x in b
  {
    forall x
      ensures x in a <==> x in b
    {
      assert x in a <==> x in multiset(a);
      assert x in b <==> x in multiset(b);
    }
  }

  /** In a sorted sequence, nothing outside a prefix beats anything inside it. */
  lemma PrefixDominates(sorted: seq<Candidate>, m: nat)
    requires SortedDesc(sorted) && m <= |sorted|
    ensures forall x, y :: x in sorted && x !in sorted[..m] && y in sorted[..m] ==> x.score <= y.score
  {
    forall x, y | x in sorted && x !in sorted[..m] && y in sorted[..m]
      ensures x.score <= y.score
    {
      assert sorted == sorted[..m] + sorted[m..];
      assert x in sorted[m..];
      var i :| 0 <= i < |sorted| - m && sorted[m..][i] == x;
      var j :| 0 <= j < m && sorted[..m][j] == y;
      assert sorted[m + i] == x && sorted[j] == y;
    }
  }

  /** The elements of a prefix are elements of the whole sequence. */
  lemma PrefixElements(sorted: seq<Candidate>, m: nat)
    requires m <= |sorted|
    ensures forall x :: x in sorted[..m] ==> x in sorted
  {
    forall x | x in sorted[..m]
      ensures x in sorted
    {
      var j :| 0 <= j < m && sorted[..m][j] == x;
      assert sorted[j] == x;
    }
  }

  /** The first `min(k, #candidates)` candidates in descending score order. */
  function TopK(cs: seq<Candidate>, k: nat): (r: seq<Candidate>)
    ensures |r| == MinNat(k, |cs|)
    ensures SortedDesc(r)
    ensures forall x :: x in r ==> x in cs
    ensures forall x, y :: x in cs && x !in r && y in r ==> x.score <= y.score
    ensures multiset(r) <= multiset(cs)
  {
    var sorted := SortDescending(cs);
    var m := MinNat(k, |cs|);
    SameElements(sorted, cs);
    PrefixElements(sorted, m);
    PrefixDominates(sorted, m);
    PrefixMultiset(sorted, m);
    sorted[..m]
  }

  /** A prefix holds no candidate more often than the whole sequence. */
  lemma PrefixMultiset(sorted: seq<Candidate>, m: nat)
    requires m <= |sorted|
    ensures multiset(sorted[..m]) <= multiset(sorted)
  {
    assert sorted == sorted[..m] + sorted[m..];
    assert multiset(sorted) == multiset(sorted[..m]) + multiset(sorted[m..]);
  }

  /** The offsets used for a candidate at (point, class). */
  function OffsetAt(offsets: OffsetTable, t: nat, c: nat): Offsets
    requires match offsets
      case Shared(o) => t < |o|
      case ByClass(o) => t < |o| && c < |o[t]|
      case ClassMajor(o) => c < |o| && t < |o[c]|
  {
    match offsets
    case Shared(o) => o[t]
    case ByClass(o) => o[t][c]
    case ClassMajor(o) => o[c][t]
  }

  /** The predicted segment of a point: `(t - left * stride, t + right * stride)`. */
  function SegmentAt(p: Point, o: Offsets): (g: Segment)
    ensures p.stride > 0.0 && o.left >= 0.0 && o.right >= 0.0 ==> g.start <= p.t <= g.end
  {
    assert p.stride > 0.0 && o.left >= 0.0 ==> o.left * p.stride >= 0.0;
    assert p.stride > 0.0 && o.right >= 0.0 ==> o.right * p.stride >= 0.0;
    Segment(p.t - o.left * p.stride, p.t + o.right * p.stride)
  }

  /** `torch.div(topk_idxs, num_classes, rounding_mode='floor')`. */
  function PointIndex(k: nat, numPoints: nat, numClasses: nat): (t: nat)
    requires numClasses > 0 && k < numPoints * numClasses
    ensures t < numPoints
  {
    IndexRecovery(k, numPoints, numClasses);
    k / numClasses
  }

  /** `torch.fmod(topk_idxs, num_classes)`; the same as `%` on non-negative indices. */
  function ClassIndex(k: nat, numClasses: nat): (c: nat)
    requires numClasses > 0
    ensures c < numClasses
  {
    k % numClasses
  }

  /** Splits a flat index into (point, class) and builds the detection. */
  function DecodeCandidate(lv: Level, numClasses: nat, x: Candidate): (d: Detection)
    requires WellShaped(lv, numClasses) && numClasses > 0 && x.idx < |lv.points| * numClasses
    ensures d.score == x.score && d.cls < numClasses
  {
    var t, c := PointIndex(x.idx, |lv.points|, numClasses), ClassIndex(x.idx, numClasses);
    Detection(SegmentAt(lv.points[t], OffsetAt(lv.offsets, t, c)), x.score, c)
  }

  /** The detection of a candidate is the segment of the point it indexes, for the class it
      indexes, and the flat index is `pt_idx * num_classes + cls_idx`. */
  lemma DecodeCandidateMeaning(lv: Level, numClasses: nat, x: Candidate)
    requires WellShaped(lv, numClasses) && numClasses > 0 && x.idx < |lv.points| * numClasses
    ensures var d := DecodeCandidate(lv, numClasses, x);
      exists t :: 0 <= t < |lv.points| && x.idx == t * numClasses + d.cls
        && d.seg == SegmentAt(lv.points[t], OffsetAt(lv.offsets, t, d.cls))
  {
    var t := PointIndex(x.idx, |lv.points|, numClasses);
    IndexRecovery(x.idx, |lv.points|, numClasses);
    assert x.idx == t * numClasses + DecodeCandidate(lv, numClasses, x).cls;
  }

  /** `pred_segs[keep_idxs2]`: the detections whose segment is longer than `thresh`, in order. */
  function KeepLong(ds: seq<Detection>, thresh: real): (r: seq<Detection>)
    ensures |r| <= |ds|
    ensures forall d :: d in r <==> d in ds && Duration(d.seg) > thresh
    decreases |ds|
  {
    if |ds| == 0 then []
    else
      var rest := KeepLong(ds[..|ds| - 1], thresh);
      assert ds == ds[..|ds| - 1] + [ds[|ds| - 1]];
      if Duration(ds[|ds| - 1].seg) > thresh then rest + [ds[|ds| - 1]] else rest
  }

  /** The positions of `ds` whose segment is longer than `thresh`, in increasing order: the
      `True` positions of `keep_idxs2`. */
  function LongIndices(ds: seq<Detection>, thresh: real): (r: seq<nat>)
    ensures forall i :: 0 <= i < |r| ==> r[i] < |ds| && Duration(ds[r[i]].seg) > thresh
    ensures forall i, j :: 0 <= i < j < |r| ==> r[i] < r[j]
    decreases |ds|
  {
    if |ds| == 0 then []
    else
      var init := ds[..|ds| - 1];
      var prev := LongIndices(init, thresh);
      assert forall i :: 0 <= i < |prev| ==> init[prev[i]] == ds[prev[i]];
      if Duration(ds[|ds| - 1].seg) > thresh then prev + [|ds| - 1] else prev
  }

  /** Boolean-mask indexing keeps the long detections in their order and with their
      repetitions: entry `j` of the result is the detection at the `j`-th long position. */
  lemma {:induction false} KeepLongAt(ds: seq<Detection>, thresh: real)
    ensures var idx := LongIndices(ds, thresh);
      |KeepLong(ds, thresh)| == |idx|
      && forall j :: 0 <= j < |idx| ==> KeepLong(ds, thresh)[j] == ds[idx[j]]
    decreases |ds|
  {
    if |ds| > 0 {
      var k := |ds| - 1;
      var init := ds[..k];
      KeepLongAt(init, thresh);
      var prev, rest := LongIndices(init, thresh), KeepLong(init, thresh);
      PrefixIndexed(ds, k, prev, rest);
      if Duration(ds[k].seg) > thresh {
        assert LongIndices(ds, thresh) == prev + [k];
        assert KeepLong(ds, thresh) == rest + [ds[k]];
        AppendIndexed(ds, prev, rest, k);
      } else {
        assert LongIndices(ds, thresh) == prev;
        assert KeepLong(ds, thresh) == rest;
      }
    }
  }

  /** Positions into a prefix of `ds` pick out the same detections in `ds` itself. */
  lemma PrefixIndexed(ds: seq<Detection>, n: nat, idx: seq<nat>, xs: seq<Detection>)
    requires n <= |ds| && |xs| == |idx|
    requires forall j :: 0 <= j < |idx| ==> idx[j] < n && xs[j] == ds[..n][idx[j]]
    ensures forall j :: 0 <= j < |idx| ==> xs[j] == ds[idx[j]]
  {
  }

  /** Appending position `k` and the detection at `k` keeps the detections indexed. */
  lemma AppendIndexed(ds: seq<Detection>, idx: seq<nat>, xs: seq<Detection>, k: nat)
    requires k < |ds| && |xs| == |idx|
    requires forall j :: 0 <= j < |idx| ==> idx[j] < |ds| && xs[j] == ds[idx[j]]
    ensures forall j :: 0 <= j < |idx| + 1 ==> (xs + [ds[k]])[j] == ds[(idx + [k])[j]]
  {
  }

  /** No long detection is dropped: every long position is among the kept ones. */
  lemma {:induction false} LongComplete(ds: seq<Detection>, thresh: real)
    ensures forall k :: 0 <= k < |ds| && Duration(ds[k].seg) > thresh ==> k in LongIndices(ds, thresh)
    decreases |ds|
  {
    if |ds| > 0 {
      var init := ds[..|ds| - 1];
      LongComplete(init, thresh);
      forall k | 0 <= k < |init| && Duration(ds[k].seg) > thresh
        ensures k in LongIndices(init, thresh)
      {
        assert init[k] == ds[k];
      }
    }
  }

  predicate ScoresDesc(ds: seq<Detection>)
  {
    forall i, j :: 0 <= i < j < |ds| ==> ds[i].score >= ds[j].score
  }

  /** Dropping detections keeps the remaining ones in their order, so descending scores stay
      descending. */
  lemma {:induction false} KeepLongSorted(ds: seq<Detection>, thresh: real)
    requires ScoresDesc(ds)
    ensures ScoresDesc(KeepLong(ds, thresh))
    decreases |ds|
  {
    if |ds| > 0 {
      var init := ds[..|ds| - 1];
      KeepLongSorted(init, thresh);
      var rest := KeepLong(init, thresh);
      forall d | d in rest
        ensures d.score >= ds[|ds| - 1].score
      {
        var i :| 0 <= i < |init| && init[i] == d;
      }
    }
  }

  /** The candidates of one level that survive the threshold and the top-k cut. */
  function LevelTop(lv: Level, cfg: TestConfig): (r: seq<Candidate>)
    requires WellShaped(lv, cfg.numClasses) && cfg.numClasses > 0
    ensures forall x :: x in r ==> x.idx < |lv.points| * cfg.numClasses
  {
    TopK(Passing(FlatScores(lv, cfg.numClasses), cfg.preNmsThresh), cfg.preNmsTopK)
  }

  /** The detection of each kept candidate, in the same order. */
  function DecodeAll(lv: Level, numClasses: nat, xs: seq<Candidate>): (ds: seq<Detection>)
    requires WellShaped(lv, numClasses) && numClasses > 0
    requires forall x :: x in xs ==> x.idx < |lv.points| * numClasses
    ensures |ds| == |xs| && forall i :: 0 <= i < |xs| ==> ds[i] == DecodeCandidate(lv, numClasses, xs[i])
  {
    seq(|xs|, i requires 0 <= i < |xs| => DecodeCandidate(lv, numClasses, xs[i]))
  }

  /** Each decoded detection comes from the (point, class) cell its candidate's flat index
      names, and carries the candidate's score. */
  lemma DecodeAllOrigin(lv: Level, numClasses: nat, xs: seq<Candidate>, i: nat)
    requires WellShaped(lv, numClasses) && numClasses > 0
    requires forall x :: x in xs ==> x.idx < |lv.points| * numClasses
    requires i < |xs|
    ensures var d := DecodeAll(lv, numClasses, xs)[i];
      d.score == xs[i].score && d.cls < numClasses
      && exists t :: (0 <= t < |lv.points| && xs[i].idx == t * numClasses + d.cls
        && d.seg == SegmentAt(lv.points[t], OffsetAt(lv.offsets, t, d.cls)))
  {
    assert xs[i] in xs;
    DecodeCandidateMeaning(lv, numClasses, xs[i]);
  }

  /** All detections of one level, before the concatenation across levels. */
  function LevelDetections(lv: Level, cfg: TestConfig): seq<Detection>
    requires WellShaped(lv, cfg.numClasses) && cfg.numClasses > 0
  {
    var top := LevelTop(lv, cfg);
    var decoded := DecodeAll(lv, cfg.numClasses, top);
    KeepLong(decoded, cfg.durationThresh)
  }

  /** The guarantees every detection of a level carries: its score is above `pre_nms_thresh`,
      its segment is longer than `duration_thresh`, its class is below `num_classes`; there are
      at most `pre_nms_topk` of them, in descending score order. */
  lemma LevelDetectionsBounds(lv: Level, cfg: TestConfig)
    requires WellShaped(lv, cfg.numClasses) && cfg.numClasses > 0
    ensures var ds := LevelDetections(lv, cfg);
      |ds| <= cfg.preNmsTopK && ScoresDesc(ds)
      && forall d :: d in ds ==>
        d.score > cfg.preNmsThresh && Duration(d.seg) > cfg.durationThresh && d.cls < cfg.numClasses
  {
    var nc := cfg.numClasses;
    var top := LevelTop(lv, cfg);
    PassingAbove(FlatScores(lv, nc), cfg.preNmsThresh);
    DecodeAllBounds(lv, nc, top, cfg.preNmsThresh);
    KeepLongSorted(DecodeAll(lv, nc, top), cfg.durationThresh);
  }

  /** Every passing candidate is above the threshold and carries the score at its index. */
  lemma PassingAbove(scores: seq<real>, thresh: real)
    ensures forall x :: x in Passing(scores, thresh) ==>
      x.score > thresh && x.idx < |scores| && x.score == scores[x.idx]
  {
    var r := Passing(scores, thresh);
    forall x | x in r
      ensures x.score > thresh && x.idx < |scores| && x.score == scores[x.idx]
    {
      var i :| 0 <= i < |r| && r[i] == x;
    }
  }

  /** Decoding keeps the order, the scores and the bound on the classes. */
  lemma DecodeAllBounds(lv: Level, numClasses: nat, xs: seq<Candidate>, thresh: real)
    requires WellShaped(lv, numClasses) && numClasses > 0
    requires forall x :: x in xs ==> x.idx < |lv.points| * numClasses && x.score > thresh
    requires SortedDesc(xs)
    ensures var ds := DecodeAll(lv, numClasses, xs);
      ScoresDesc(ds) && forall d :: d in ds ==> d.score > thresh && d.cls < numClasses
  {
    var ds := DecodeAll(lv, numClasses, xs);
    forall d | d in ds
      ensures d.score > thresh && d.cls < numClasses
    {
      var i :| 0 <= i < |ds| && ds[i] == d;
      assert xs[i] in xs;
    }
  }

  /** Where each detection of a level comes from: a (point, class) cell whose masked
      probability is its score, with the segment rebuilt from that point's offsets. */
  lemma LevelDetectionOrigin(lv: Level, cfg: TestConfig, d: Detection)
    requires WellShaped(lv, cfg.numClasses) && cfg.numClasses > 0
    requires d in LevelDetections(lv, cfg)
    ensures d.cls < cfg.numClasses
    ensures exists t :: (0 <= t < |lv.points|
      && d.score == MaskedProb(lv, cfg.numClasses, t, d.cls)
      && d.seg == SegmentAt(lv.points[t], OffsetAt(lv.offsets, t, d.cls)))
  {
    var nc := cfg.numClasses;
    var top := LevelTop(lv, cfg);
    var decoded := DecodeAll(lv, nc, top);
    PassingAbove(FlatScores(lv, nc), cfg.preNmsThresh);
    var i :| 0 <= i < |decoded| && decoded[i] == d;
    assert top[i] in top;
    CandidateOrigin(lv, nc, top[i]);
  }

  /** A candidate read off the flat scores decodes to the cell its index names. */
  lemma CandidateOrigin(lv: Level, numClasses: nat, x: Candidate)
    requires WellShaped(lv, numClasses) && numClasses > 0 && x.idx < |FlatScores(lv, numClasses)|
    requires x.score == FlatScores(lv, numClasses)[x.idx]
    ensures var d := DecodeCandidate(lv, numClasses, x);
      exists t :: (0 <= t < |lv.points|
        && d.score == MaskedProb(lv, numClasses, t, d.cls)
        && d.seg == SegmentAt(lv.points[t], OffsetAt(lv.offsets, t, d.cls)))
  {
    var t := PointIndex(x.idx, |lv.points|, numClasses);
    var d := DecodeCandidate(lv, numClasses, x);
    assert d.cls == ClassIndex(x.idx, numClasses);
    assert FlatScores(lv, numClasses)[x.idx] == MaskedProb(lv, numClasses, t, d.cls);
    assert d.seg == SegmentAt(lv.points[t], OffsetAt(lv.offsets, t, d.cls));
  }

  /** The passing candidates are exactly the cells above the threshold, so a level keeps
      `min(pre_nms_topk, #cells above the threshold)` candidates before the duration filter. */
  lemma TopCount(lv: Level, cfg: TestConfig)
    requires WellShaped(lv, cfg.numClasses) && cfg.numClasses > 0
    ensures var passing := Passing(FlatScores(lv, cfg.numClasses), cfg.preNmsThresh);
      |LevelTop(lv, cfg)| == MinNat(cfg.preNmsTopK, |passing|)
      && (forall t: nat, c: nat :: (t < |lv.points| && c < cfg.numClasses
            && MaskedProb(lv, cfg.numClasses, t, c) > cfg.preNmsThresh) ==>
            Candidate(MaskedProb(lv, cfg.numClasses, t, c), FlatIndex(t, c, cfg.numClasses)) in passing)
  {
    var scores := FlatScores(lv, cfg.numClasses);
    forall t: nat, c: nat | t < |lv.points| && c < cfg.numClasses
      && MaskedProb(lv, cfg.numClasses, t, c) > cfg.preNmsThresh
      ensures Candidate(MaskedProb(lv, cfg.numClasses, t, c), FlatIndex(t, c, cfg.numClasses))
              in Passing(scores, cfg.preNmsThresh)
    {
      FlatScoresAt(lv, cfg.numClasses, t, c);
    }
  }

  /** `torch.cat` of the per-level detections. */
  function AllLevels(levels: seq<Level>, cfg: TestConfig): seq<Detection>
    requires cfg.numClasses > 0 && forall l :: 0 <= l < |levels| ==> WellShaped(levels[l], cfg.numClasses)
    decreases |levels|
  {
    if |levels| == 0 then []
    else AllLevels(levels[..|levels| - 1], cfg) + LevelDetections(levels[|levels| - 1], cfg)
  }

  /** Every concatenated detection keeps the guarantees of the level it comes from, and each
      level contributes at most `pre_nms_topk` detections. */
  lemma {:induction false} AllLevelsSound(levels: seq<Level>, cfg: TestConfig)
    requires cfg.numClasses > 0 && forall l :: 0 <= l < |levels| ==> WellShaped(levels[l], cfg.numClasses)
    ensures forall d :: d in AllLevels(levels, cfg) ==>
      d.score > cfg.preNmsThresh && Duration(d.seg) > cfg.durationThresh && d.cls < cfg.numClasses
    ensures |AllLevels(levels, cfg)| <= |levels| * cfg.preNmsTopK
    decreases |levels|
  {
    if |levels| > 0 {
      var n := |levels| - 1;
      var prefix, last := AllLevels(levels[..n], cfg), LevelDetections(levels[n], cfg);
      AllLevelsSound(levels[..n], cfg);
      LevelDetectionsBounds(levels[n], cfg);
      assert AllLevels(levels, cfg) == prefix + last;
      forall d: Detection | d in prefix + last
        ensures d.score > cfg.preNmsThresh && Duration(d.seg) > cfg.durationThresh && d.cls < cfg.numClasses
      {
        if d !in prefix {
          assert d in last;
        }
      }
      MulSucc(n, cfg.preNmsTopK);
    }
  }

  /** The `segments`, `scores` and `labels` columns of a list of detections. */
  function SegsOf(ds: seq<Detection>): (r: seq<Segment>)
    ensures |r| == |ds|
  {
    seq(|ds|, i requires 0 <= i < |ds| => ds[i].seg)
  }

  function ScoresOf(ds: seq<Detection>): (r: seq<real>)
    ensures |r| == |ds|
  {
    seq(|ds|, i requires 0 <= i < |ds| => ds[i].score)
  }

  function LabelsOf(ds: seq<Detection>): (r: seq<nat>)
    ensures |r| == |ds|
  {
    seq(|ds|, i requires 0 <= i < |ds| => ds[i].cls)
  }

  lemma ColumnsAppend(a: seq<Detection>, b: seq<Detection>)
    ensures SegsOf(a + b) == SegsOf(a) + SegsOf(b)
    ensures ScoresOf(a + b) == ScoresOf(a) + ScoresOf(b)
    ensures LabelsOf(a + b) == LabelsOf(a) + LabelsOf(b)
  {
  }

  /** The levels of a prefix are well shaped. */
  lemma PrefixShaped(levels: seq<Level>, cfg: TestConfig, l: nat)
    requires l <= |levels| && forall k :: 0 <= k < |levels| ==> WellShaped(levels[k], cfg.numClasses)
    ensures forall k :: 0 <= k < l ==> WellShaped(levels[..l][k], cfg.numClasses)
  {
  }

  /** One more level appends its detections to the concatenation. */
  lemma AllLevelsStep(levels: seq<Level>, cfg: TestConfig, l: nat)
    requires cfg.numClasses > 0 && l < |levels| && forall k :: 0 <= k < |levels| ==> WellShaped(levels[k], cfg.numClasses)
    ensures forall k :: 0 <= k < l ==> WellShaped(levels[..l][k], cfg.numClasses)
    ensures var next := levels[..l + 1];
      (forall k :: 0 <= k < |next| ==> WellShaped(next[k], cfg.numClasses))
      && AllLevels(next, cfg) == AllLevels(levels[..l], cfg) + LevelDetections(levels[l], cfg)
  {
    assert levels[..l + 1][..l] == levels[..l];
  }

  /** The loop over pyramid levels that appends each level's segments, scores and classes. */
  method InferenceSingleVideo(levels: seq<Level>, cfg: TestConfig)
    returns (segs: seq<Segment>, scores: seq<real>, labels: seq<nat>)
    requires cfg.numClasses > 0 && forall l :: 0 <= l < |levels| ==> WellShaped(levels[l], cfg.numClasses)
    ensures var all := AllLevels(levels, cfg);
      segs == SegsOf(all) && scores == ScoresOf(all) && labels == LabelsOf(all)
    ensures |segs| == |scores| == |labels| <= |levels| * cfg.preNmsTopK
    ensures forall i :: 0 <= i < |segs| ==>
      scores[i] > cfg.preNmsThresh && segs[i].end - segs[i].start > cfg.durationThresh && labels[i] < cfg.numClasses
  {
    segs, scores, labels := [], [], [];
    var l := 0;
    PrefixShaped(levels, cfg, 0);
    while l < |levels|
      invariant 0 <= l <= |levels|
      invariant forall k :: 0 <= k < l ==> WellShaped(levels[..l][k], cfg.numClasses)
      invariant var all := AllLevels(levels[..l], cfg);
        segs == SegsOf(all) && scores == ScoresOf(all) && labels == LabelsOf(all)
    {
      var ds := LevelDetections(levels[l], cfg);
      AllLevelsStep(levels, cfg, l);
      ColumnsAppend(AllLevels(levels[..l], cfg), ds);
      segs := segs + SegsOf(ds);
      scores := scores + ScoresOf(ds);
      labels := labels + LabelsOf(ds);
      l := l + 1;
    }
    assert levels[..l] == levels;
    AllLevelsSound(levels, cfg);
    ColumnsBounds(AllLevels(levels, cfg), cfg);
  }

  /** The per-detection guarantees, read column-wise. */
  lemma ColumnsBounds(ds: seq<Detection>, cfg: TestConfig)
    requires forall d :: d in ds ==>
      d.score > cfg.preNmsThresh && Duration(d.seg) > cfg.durationThresh && d.cls < cfg.numClasses
    ensures forall i :: 0 <= i < |ds| ==>
      ScoresOf(ds)[i] > cfg.preNmsThresh && SegsOf(ds)[i].end - SegsOf(ds)[i].start > cfg.durationThresh
      && LabelsOf(ds)[i] < cfg.numClasses
  {
    forall i | 0 <= i < |ds|
      ensures ScoresOf(ds)[i] > cfg.preNmsThresh && SegsOf(ds)[i].end - SegsOf(ds)[i].start > cfg.durationThresh
              && LabelsOf(ds)[i] < cfg.numClasses
    {
      assert ds[i] in ds;
    }
  }
}
