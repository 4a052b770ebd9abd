/** Training-target assignment of the detection head (label_points_single_video):
    for every point of the concatenated pyramid, which ground-truth segment it is
    responsible for, the per-class classification target and the stride-normalised
    distances to the boundaries of that segment. */
module LabelAssign {
  import opened Wrappers
  import opened Points

  /** The `center_sample` policy of the training configuration. */
  datatype CenterSample = NoSampling | Radius(radius: real)

  datatype AssignConfig = AssignConfig(numClasses: nat, multiLabel: bool, centerSample: CenterSample)

  /** Regression targets: one pair per point (single-label mode and the no-ground-truth case),
      or one pair per point and class (multi-label mode). */
  datatype RegTargets = PerPoint(offsets: seq<Offsets>) | PerPointClass(perClass: seq<seq<Offsets>>)

  datatype Targets = Targets(cls: seq<seq<real>>, reg: RegTargets)

  /** A segment length after masking: disqualified segments get an infinite length. */
  datatype Len = Finite(v: real) | Infinite

  predicate LenLe(a: Len, b: Len)
  {
    match (a, b)
    case (_, Infinite) => true
    case (Infinite, Finite(_)) => false
    case (Finite(x), Finite(y)) => x <= y
  }

  function LeftDist(p: Point, g: Segment): real { p.t - g.start }

  function RightDist(p: Point, g: Segment): real { g.end - p.t }

  /** The inside test: strictly inside the segment, or, with center sampling, strictly inside
      the window of `radius` strides around the segment's center, clipped to the segment. */
  predicate Inside(cs: CenterSample, p: Point, g: Segment)
  {
    match cs
    case NoSampling => Min(LeftDist(p, g), RightDist(p, g)) > 0.0
    case Radius(r) =>
      var center := 0.5 * (g.start + g.end);
      var tMin := center - p.stride * r;
      var tMax := center + p.stride * r;
      Min(p.t - Max(tMin, g.start), Min(tMax, g.end) - p.t) > 0.0
  }

  /** The per-level regression range: the larger of the two distances lies in [rangeMin, rangeMax]. */
  predicate InRange(p: Point, g: Segment)
  {
    var d := Max(LeftDist(p, g), RightDist(p, g));
    p.rangeMin <= d <= p.rangeMax
  }

  /** A segment is a candidate for a point when it passes both tests. */
  predicate Qualifies(cs: CenterSample, p: Point, g: Segment)
  {
    Inside(cs, p, g) && InRange(p, g)
  }

  /** The length of `g` after both `masked_fill_` calls set it to infinity where a test failed. */
  function MaskedLen(cs: CenterSample, p: Point, g: Segment): Len
  {
    if Qualifies(cs, p, g) then Finite(Duration(g)) else Infinite
  }

  function MaskedLens(cs: CenterSample, p: Point, gts: seq<Segment>): (lens: seq<Len>)
    ensures |lens| == |gts|
  {
    seq(|gts|, j requires 0 <= j < |gts| => MaskedLen(cs, p, gts[j]))
  }

  /** The index `min(dim=1)` returns: a minimal entry, the first one among equal minima. */
  function FirstMinIndex(lens: seq<Len>): (j: nat)
    requires |lens| > 0
    ensures j < |lens|
    ensures forall k :: 0 <= k < |lens| ==> LenLe(lens[j], lens[k])
    ensures forall k :: 0 <= k < j ==> !LenLe(lens[k], lens[j])
    decreases |lens|
  {
    if |lens| == 1 then 0
    else
      var i := FirstMinIndex(lens[..|lens| - 1]);
      if LenLe(lens[i], lens[|lens| - 1]) then i else |lens| - 1
  }

  function MinLen(lens: seq<Len>): Len
    requires |lens| > 0
  {
    lens[FirstMinIndex(lens)]
  }

  function AddSlack(l: Len): Len
  {
    match l
    case Finite(v) => Finite(v + 0.001)
    case Infinite => Infinite
  }

  /** `min_len_mask`: a finite length within 1e-3 of the row's minimum. */
  function TieMask(cs: CenterSample, p: Point, gts: seq<Segment>): (mask: seq<bool>)
    requires |gts| > 0
    ensures |mask| == |gts|
  {
    var lens := MaskedLens(cs, p, gts);
    seq(|gts|, j requires 0 <= j < |gts| => LenLe(lens[j], AddSlack(MinLen(lens))) && lens[j].Finite?)
  }

  /** `lens < inf` of multi-label mode. */
  function QualifyMask(cs: CenterSample, p: Point, gts: seq<Segment>): (mask: seq<bool>)
    ensures |mask| == |gts|
  {
    seq(|gts|, j requires 0 <= j < |gts| => Qualifies(cs, p, gts[j]))
  }

  function Indicator(b: bool): real { if b then 1.0 else 0.0 }

  function OneHot(lbl: int, c: int): real { if lbl == c then 1.0 else 0.0 }

  /** Column `c` of `mask @ one_hot(labels)`: the number of selected segments labelled `c`. */
  function Votes(mask: seq<bool>, labels: seq<int>, c: int): real
    requires |mask| == |labels|
    decreases |mask|
  {
    if |mask| == 0 then 0.0
    else
      Votes(mask[..|mask| - 1], labels[..|labels| - 1], c)
      + Indicator(mask[|mask| - 1]) * OneHot(labels[|labels| - 1], c)
  }

  function Clamp01(x: real): real
  {
    if x < 0.0 then 0.0 else if x > 1.0 then 1.0 else x
  }

  predicate ValidLabels(labels: seq<int>, numClasses: nat)
  {
    forall j :: 0 <= j < |labels| ==> 0 <= labels[j] < numClasses
  }

  predicate AssignPre(cfg: AssignConfig, pts: seq<Point>, gts: seq<Segment>, labels: seq<int>)
  {
    |gts| == |labels| && PositiveStrides(pts) && ValidLabels(labels, cfg.numClasses)
  }

  function SingleClsRow(cs: CenterSample, p: Point, gts: seq<Segment>, labels: seq<int>, numClasses: nat): seq<real>
    requires |gts| == |labels| && |gts| > 0
  {
    var mask := TieMask(cs, p, gts);
    seq(numClasses, c requires 0 <= c < numClasses => Clamp01(Votes(mask, labels, c)))
  }

  function Normalise(o: Offsets, stride: real): Offsets
    requires stride != 0.0
  {
    Offsets(o.left / stride, o.right / stride)
  }

  function Distances(p: Point, g: Segment): Offsets
  {
    Offsets(LeftDist(p, g), RightDist(p, g))
  }

  /** Single-label regression target: distances to the segment `min_len_inds` picks. */
  function SingleReg(cs: CenterSample, p: Point, gts: seq<Segment>): Offsets
    requires |gts| > 0 && p.stride > 0.0
  {
    var j := FirstMinIndex(MaskedLens(cs, p, gts));
    Normalise(Distances(p, gts[j]), p.stride)
  }

  function MultiClsRow(cs: CenterSample, p: Point, gts: seq<Segment>, labels: seq<int>, numClasses: nat): seq<real>
    requires |gts| == |labels|
  {
    var mask := QualifyMask(cs, p, gts);
    seq(numClasses, c requires 0 <= c < numClasses => Clamp01(Votes(mask, labels, c)))
  }

  /** The last of the first `n` segments that qualifies at `p` and is labelled `c`:
      the write that survives the row-major scatter into `multi_target`. */
  function LastAssigned(cs: CenterSample, p: Point, gts: seq<Segment>, labels: seq<int>, c: int, n: nat): (r: Option<nat>)
    requires n <= |gts| == |labels|
    ensures r.Some? ==> r.value < n && Qualifies(cs, p, gts[r.value]) && labels[r.value] == c
    ensures r.Some? ==> forall k :: r.value < k < n ==> !(Qualifies(cs, p, gts[k]) && labels[k] == c)
    ensures r.None? ==> forall k :: 0 <= k < n ==> !(Qualifies(cs, p, gts[k]) && labels[k] == c)
  {
    if n == 0 then None
    else if Qualifies(cs, p, gts[n - 1]) && labels[n - 1] == c then Some(n - 1)
    else LastAssigned(cs, p, gts, labels, c, n - 1)
  }

  /** Entry (p, c) of `multi_target` after the first `n` segments were scattered, before normalisation. */
  function RawEntry(cs: CenterSample, p: Point, gts: seq<Segment>, labels: seq<int>, c: int, n: nat): Offsets
    requires n <= |gts| == |labels|
  {
    match LastAssigned(cs, p, gts, labels, c, n)
    case None => Offsets(0.0, 0.0)
    case Some(j) => Distances(p, gts[j])
  }

  function MultiRegEntry(cs: CenterSample, p: Point, gts: seq<Segment>, labels: seq<int>, c: int): Offsets
    requires |gts| == |labels| && p.stride > 0.0
  {
    Normalise(RawEntry(cs, p, gts, labels, c, |gts|), p.stride)
  }

  function ZeroTargets(numPts: nat, numClasses: nat): Targets
  {
    Targets(seq(numPts, _ => seq(numClasses, _ => 0.0)), PerPoint(seq(numPts, _ => Offsets(0.0, 0.0))))
  }

  /** The targets of one video, as the tensor code computes them. */
  function AssignTargets(cfg: AssignConfig, pts: seq<Point>, gts: seq<Segment>, labels: seq<int>): Targets
    requires AssignPre(cfg, pts, gts, labels)
  {
    var cs, n, nc := cfg.centerSample, |pts|, cfg.numClasses;
    if |gts| == 0 then ZeroTargets(n, nc)
    else if cfg.multiLabel then
      Targets(seq(n, i requires 0 <= i < n => MultiClsRow(cs, pts[i], gts, labels, nc)),
              PerPointClass(seq(n, i requires 0 <= i < n =>
                seq(nc, c requires 0 <= c < nc => MultiRegEntry(cs, pts[i], gts, labels, c)))))
    else
      Targets(seq(n, i requires 0 <= i < n => SingleClsRow(cs, pts[i], gts, labels, nc)),
              PerPoint(seq(n, i requires 0 <= i < n => SingleReg(cs, pts[i], gts))))
  }

  /** label_points_single_video. The multi-label branch scatters the distances of every
      qualifying (point, segment) pair into a zero tensor in row-major order and then divides
      the whole tensor by the point strides, as the source does in place. */
  method LabelPointsSingleVideo(cfg: AssignConfig, pts: seq<Point>, gts: seq<Segment>, labels: seq<int>)
    returns (tg: Targets)
    requires AssignPre(cfg, pts, gts, labels)
    ensures tg == AssignTargets(cfg, pts, gts, labels)
  {
    var cs, nc := cfg.centerSample, cfg.numClasses;
    if |gts| == 0 {
      return ZeroTargets(|pts|, nc);
    }
    if !cfg.multiLabel {
      var cls := seq(|pts|, i requires 0 <= i < |pts| => SingleClsRow(cs, pts[i], gts, labels, nc));
      var reg := seq(|pts|, i requires 0 <= i < |pts| => SingleReg(cs, pts[i], gts));
      return Targets(cls, PerPoint(reg));
    }
    var cls := seq(|pts|, i requires 0 <= i < |pts| => MultiClsRow(cs, pts[i], gts, labels, nc));
    var target := seq(|pts|, _ => seq(nc, _ => Offsets(0.0, 0.0)));
    var i := 0;
    while i < |pts|
      invariant 0 <= i <= |pts|
      invariant |target| == |pts|
      invariant forall p :: 0 <= p < |pts| ==> |target[p]| == nc
      invariant forall p, c :: 0 <= p < i && 0 <= c < nc ==> target[p][c] == RawEntry(cs, pts[p], gts, labels, c, |gts|)
      invariant forall p, c :: i <= p < |pts| && 0 <= c < nc ==> target[p][c] == Offsets(0.0, 0.0)
    {
      var j := 0;
      while j < |gts|
        invariant 0 <= j <= |gts|
        invariant |target| == |pts|
        invariant forall p :: 0 <= p < |pts| ==> |target[p]| == nc
        invariant forall p, c :: 0 <= p < i && 0 <= c < nc ==> target[p][c] == RawEntry(cs, pts[p], gts, labels, c, |gts|)
        invariant forall p, c :: i < p < |pts| && 0 <= c < nc ==> target[p][c] == Offsets(0.0, 0.0)
        invariant forall c :: 0 <= c < nc ==> target[i][c] == RawEntry(cs, pts[i], gts, labels, c, j)
      {
        if Qualifies(cs, pts[i], gts[j]) {
          target := target[i := target[i][labels[j] := Distances(pts[i], gts[j])]];
        }
        j := j + 1;
      }
      i := i + 1;
    }
    i := 0;
    while i < |pts|
      invariant 0 <= i <= |pts|
      invariant |target| == |pts|
      invariant forall p :: 0 <= p < |pts| ==> |target[p]| == nc
      invariant forall p, c :: 0 <= p < i && 0 <= c < nc ==> target[p][c] == MultiRegEntry(cs, pts[p], gts, labels, c)
      invariant forall p, c :: i <= p < |pts| && 0 <= c < nc ==> target[p][c] == RawEntry(cs, pts[p], gts, labels, c, |gts|)
    {
      var row := target[i];
      target := target[i := seq(nc, c requires 0 <= c < nc => Normalise(row[c], pts[i].stride))];
      i := i + 1;
    }
    ghost var want := seq(|pts|, p requires 0 <= p < |pts| =>
      seq(nc, c requires 0 <= c < nc => MultiRegEntry(cs, pts[p], gts, labels, c)));
    assert forall p :: 0 <= p < |pts| ==> target[p] == want[p];
    assert target == want;
    assert cls == AssignTargets(cfg, pts, gts, labels).cls;
    return Targets(cls, PerPointClass(target));
  }

  // ---------------------------------------------------------------------------
  // What the targets mean

  /** `g` qualifies at `p` and no qualifying segment is more than 1e-3 shorter. */
  predicate NearShortest(cs: CenterSample, p: Point, gts: seq<Segment>, j: nat)
    requires j < |gts|
  {
    Qualifies(cs, p, gts[j])
    && forall k :: 0 <= k < |gts| && Qualifies(cs, p, gts[k]) ==> Duration(gts[j]) <= Duration(gts[k]) + 0.001
  }

  /** `g` qualifies at `p` and no qualifying segment is shorter. */
  predicate Shortest(cs: CenterSample, p: Point, gts: seq<Segment>, j: nat)
    requires j < |gts|
  {
    Qualifies(cs, p, gts[j])
    && forall k :: 0 <= k < |gts| && Qualifies(cs, p, gts[k]) ==> Duration(gts[j]) <= Duration(gts[k])
  }

  lemma MinLenMeaning(cs: CenterSample, p: Point, gts: seq<Segment>)
    requires |gts| > 0
    ensures var j := FirstMinIndex(MaskedLens(cs, p, gts));
      (MinLen(MaskedLens(cs, p, gts)).Infinite? <==> forall k :: 0 <= k < |gts| ==> !Qualifies(cs, p, gts[k]))
      && ((exists k :: 0 <= k < |gts| && Qualifies(cs, p, gts[k])) ==> Shortest(cs, p, gts, j))
  {
    var lens := MaskedLens(cs, p, gts);
    var j := FirstMinIndex(lens);
    if exists k :: 0 <= k < |gts| && Qualifies(cs, p, gts[k]) {
      var k :| 0 <= k < |gts| && Qualifies(cs, p, gts[k]);
      assert LenLe(lens[j], lens[k]);
      forall k' | 0 <= k' < |gts| && Qualifies(cs, p, gts[k'])
        ensures Duration(gts[j]) <= Duration(gts[k'])
      {
        assert LenLe(lens[j], lens[k']);
      }
    }
  }

  lemma TieMaskMeaning(cs: CenterSample, p: Point, gts: seq<Segment>, j: nat)
    requires j < |gts|
    ensures TieMask(cs, p, gts)[j] <==> NearShortest(cs, p, gts, j)
  {
    var lens := MaskedLens(cs, p, gts);
    var m := FirstMinIndex(lens);
    MinLenMeaning(cs, p, gts);
    if NearShortest(cs, p, gts, j) {
      assert Qualifies(cs, p, gts[m]);
      assert Duration(gts[j]) <= Duration(gts[m]) + 0.001;
    }
    if TieMask(cs, p, gts)[j] {
      forall k | 0 <= k < |gts| && Qualifies(cs, p, gts[k])
        ensures Duration(gts[j]) <= Duration(gts[k]) + 0.001
      {
        assert LenLe(lens[m], lens[k]);
      }
    }
  }

  /** A clamped vote count is 1 exactly when some selected segment has label `c`, else 0. */
  lemma {:induction false} VotesMeaning(mask: seq<bool>, labels: seq<int>, c: int)
    requires |mask| == |labels|
    ensures Votes(mask, labels, c) >= 0.0
    ensures Clamp01(Votes(mask, labels, c)) == Indicator(exists j :: 0 <= j < |mask| && mask[j] && labels[j] == c)
  {
    if |mask| > 0 {
      var n := |mask| - 1;
      VotesMeaning(mask[..n], labels[..n], c);
      if exists j :: 0 <= j < n && mask[..n][j] && labels[..n][j] == c {
        var j :| 0 <= j < n && mask[..n][j] && labels[..n][j] == c;
        assert mask[j] && labels[j] == c;
      }
      if exists j :: 0 <= j < |mask| && mask[j] && labels[j] == c {
        var j :| 0 <= j < |mask| && mask[j] && labels[j] == c;
        if j < n {
          assert mask[..n][j] && labels[..n][j] == c;
        }
      }
    }
  }

  /** Single-label mode: class `c` is set at a point exactly when a segment labelled `c`
      qualifies there and is within 1e-3 of the shortest qualifying segment; the target is 0 or 1. */
  lemma SingleLabelClassification(cfg: AssignConfig, pts: seq<Point>, gts: seq<Segment>, labels: seq<int>, i: nat, c: nat)
    requires AssignPre(cfg, pts, gts, labels)
    requires !cfg.multiLabel && |gts| > 0 && i < |pts| && c < cfg.numClasses
    ensures var cls := AssignTargets(cfg, pts, gts, labels).cls;
      |cls| == |pts| && |cls[i]| == cfg.numClasses
      && (cls[i][c] == 1.0 || cls[i][c] == 0.0)
      && (cls[i][c] == 1.0 <==> exists j :: 0 <= j < |gts| && labels[j] == c && NearShortest(cfg.centerSample, pts[i], gts, j))
  {
    var cs := cfg.centerSample;
    var mask := TieMask(cs, pts[i], gts);
    VotesMeaning(mask, labels, c);
    forall j | 0 <= j < |gts| {
      TieMaskMeaning(cs, pts[i], gts, j);
    }
  }

  /** Point-level meaning of `SingleReg`: the pair of the first shortest qualifying segment,
      or of the first segment when none qualifies. */
  lemma SingleRegMeaning(cs: CenterSample, p: Point, gts: seq<Segment>)
    requires |gts| > 0 && p.stride > 0.0
    ensures (exists k :: 0 <= k < |gts| && Qualifies(cs, p, gts[k])) ==>
      exists j :: 0 <= j < |gts| && Shortest(cs, p, gts, j)
        && (forall k :: 0 <= k < j ==> !Shortest(cs, p, gts, k))
        && SingleReg(cs, p, gts) == Normalise(Distances(p, gts[j]), p.stride)
    ensures (forall k :: 0 <= k < |gts| ==> !Qualifies(cs, p, gts[k])) ==>
      SingleReg(cs, p, gts) == Normalise(Distances(p, gts[0]), p.stride)
  {
    var lens := MaskedLens(cs, p, gts);
    var j := FirstMinIndex(lens);
    MinLenMeaning(cs, p, gts);
    if exists k :: 0 <= k < |gts| && Qualifies(cs, p, gts[k]) {
      forall k | 0 <= k < j
        ensures !Shortest(cs, p, gts, k)
      {
        assert !LenLe(lens[k], lens[j]);
      }
    } else {
      assert lens[j] == Infinite;
      assert LenLe(lens[0], lens[j]);
    }
  }

  /** Single-label mode: when some segment qualifies, the regression target is the stride-normalised
      distance pair to a qualifying segment of minimal length (the first one); when none does,
      it is the distance pair to the first ground-truth segment, as `min_len_inds` is then 0. */
  lemma SingleLabelRegression(cfg: AssignConfig, pts: seq<Point>, gts: seq<Segment>, labels: seq<int>, i: nat)
    requires AssignPre(cfg, pts, gts, labels)
    requires !cfg.multiLabel && |gts| > 0 && i < |pts|
    ensures var reg := AssignTargets(cfg, pts, gts, labels).reg;
      reg.PerPoint? && |reg.offsets| == |pts|
      && ((exists k :: 0 <= k < |gts| && Qualifies(cfg.centerSample, pts[i], gts[k])) ==>
            exists j :: 0 <= j < |gts| && Shortest(cfg.centerSample, pts[i], gts, j)
              && (forall k :: 0 <= k < j ==> !Shortest(cfg.centerSample, pts[i], gts, k))
              && reg.offsets[i] == Normalise(Distances(pts[i], gts[j]), pts[i].stride))
      && ((forall k :: 0 <= k < |gts| ==> !Qualifies(cfg.centerSample, pts[i], gts[k])) ==>
            reg.offsets[i] == Normalise(Distances(pts[i], gts[0]), pts[i].stride))
  {
    var reg := AssignTargets(cfg, pts, gts, labels).reg;
    assert reg.offsets[i] == SingleReg(cfg.centerSample, pts[i], gts);
    SingleRegMeaning(cfg.centerSample, pts[i], gts);
  }

  /** Multi-label mode: the target at (point, class) is 1 exactly when a segment of that class
      qualifies; the regression target is zero for every unassigned class and otherwise the
      normalised distance pair to a qualifying segment of that class. */
  lemma MultiLabelTargets(cfg: AssignConfig, pts: seq<Point>, gts: seq<Segment>, labels: seq<int>, i: nat, c: nat)
    requires AssignPre(cfg, pts, gts, labels)
    requires cfg.multiLabel && |gts| > 0 && i < |pts| && c < cfg.numClasses
    ensures var tg := AssignTargets(cfg, pts, gts, labels);
      tg.reg.PerPointClass? && |tg.cls| == |tg.reg.perClass| == |pts|
      && |tg.cls[i]| == |tg.reg.perClass[i]| == cfg.numClasses
      && tg.cls[i][c] == Indicator(exists j :: 0 <= j < |gts| && labels[j] == c && Qualifies(cfg.centerSample, pts[i], gts[j]))
      && (tg.cls[i][c] == 0.0 ==> tg.reg.perClass[i][c] == Offsets(0.0, 0.0))
      && (tg.cls[i][c] == 1.0 ==>
            exists j :: 0 <= j < |gts| && labels[j] == c && Qualifies(cfg.centerSample, pts[i], gts[j])
              && tg.reg.perClass[i][c] == Offsets((pts[i].t - gts[j].start) / pts[i].stride, (gts[j].end - pts[i].t) / pts[i].stride))
  {
    var cs := cfg.centerSample;
    var mask := QualifyMask(cs, pts[i], gts);
    VotesMeaning(mask, labels, c);
    var last := LastAssigned(cs, pts[i], gts, labels, c, |gts|);
    if last.Some? {
      var j := last.value;
      assert mask[j] && labels[j] == c;
    }
  }

  /** A point where no ground-truth segment qualifies is background in both modes. */
  lemma BackgroundPoint(cfg: AssignConfig, pts: seq<Point>, gts: seq<Segment>, labels: seq<int>, i: nat)
    requires AssignPre(cfg, pts, gts, labels) && i < |pts|
    requires forall k :: 0 <= k < |gts| ==> !Qualifies(cfg.centerSample, pts[i], gts[k])
    ensures var cls := AssignTargets(cfg, pts, gts, labels).cls;
      |cls| == |pts| && |cls[i]| == cfg.numClasses && forall c :: 0 <= c < cfg.numClasses ==> cls[i][c] == 0.0
  {
    if |gts| > 0 {
      forall c | 0 <= c < cfg.numClasses
        ensures AssignTargets(cfg, pts, gts, labels).cls[i][c] == 0.0
      {
        if cfg.multiLabel {
          MultiLabelTargets(cfg, pts, gts, labels, i, c);
        } else {
          SingleLabelClassification(cfg, pts, gts, labels, i, c);
        }
      }
    }
  }

  /** With no ground truth the targets are all-zero `num_pts x num_classes` and `num_pts x 2`
      tensors, in multi-label mode too. */
  lemma NoGroundTruth(cfg: AssignConfig, pts: seq<Point>)
    requires PositiveStrides(pts)
    ensures var tg := AssignTargets(cfg, pts, [], []);
      |tg.cls| == |pts| && (forall i :: 0 <= i < |pts| ==> tg.cls[i] == seq(cfg.numClasses, _ => 0.0))
      && tg.reg.PerPoint? && |tg.reg.offsets| == |pts|
      && forall i :: 0 <= i < |pts| ==> tg.reg.offsets[i] == Offsets(0.0, 0.0)
  {
  }

  /** One ground-truth segment [10, 20] on a level with stride 1 and regression range [0, 16]:
      points strictly inside get that segment's class, the others are background; the
      regression target is (t - 10, 20 - t) at every point. */
  lemma OneSegmentScenario(t: real, lbl: nat, numClasses: nat)
    requires lbl < numClasses
    ensures var tg := AssignTargets(AssignConfig(numClasses, false, NoSampling),
                                    [Point(t, 0.0, 16.0, 1.0)], [Segment(10.0, 20.0)], [lbl]);
      tg.reg == PerPoint([Offsets(t - 10.0, 20.0 - t)])
      && |tg.cls| == 1 && |tg.cls[0]| == numClasses
      && forall c :: 0 <= c < numClasses ==> tg.cls[0][c] == (if 10.0 < t < 20.0 && c == lbl then 1.0 else 0.0)
  {
    var cfg := AssignConfig(numClasses, false, NoSampling);
    var pts, gts := [Point(t, 0.0, 16.0, 1.0)], [Segment(10.0, 20.0)];
    assert Qualifies(NoSampling, pts[0], gts[0]) <==> 10.0 < t < 20.0;
    forall c | 0 <= c < numClasses
      ensures AssignTargets(cfg, pts, gts, [lbl]).cls[0][c] == (if 10.0 < t < 20.0 && c == lbl then 1.0 else 0.0)
    {
      SingleLabelClassification(cfg, pts, gts, [lbl], 0, c);
    }
    SingleLabelRegression(cfg, pts, gts, [lbl], 0);
  }

  /** Setup facts for `TieMarksTwoClasses`: the point at t = 5 lies strictly inside [0, d]. */
  lemma TieInside(d: real)
    requires 10.0 < d <= 10.001
    ensures Qualifies(NoSampling, Point(5.0, 0.0, 100.0, 1.0), Segment(0.0, d))
  {
  }

  /** Setup facts for `TieMarksTwoClasses`: [0, 10] is near-shortest (with the 1e-3 slack of
      the tie rule) and strictly shortest. */
  lemma TieFirstShortest(d: real)
    requires 10.0 < d <= 10.001
    ensures var p, gts := Point(5.0, 0.0, 100.0, 1.0), [Segment(0.0, 10.0), Segment(0.0, d)];
      NearShortest(NoSampling, p, gts, 0) && Shortest(NoSampling, p, gts, 0)
  {
    var p, gts := Point(5.0, 0.0, 100.0, 1.0), [Segment(0.0, 10.0), Segment(0.0, d)];
    forall k | 0 <= k < |gts|
      ensures Duration(gts[0]) <= Duration(gts[k])
    {
      assert k == 0 || k == 1;
    }
    TieInside(d);
  }

  /** Setup facts for `TieMarksTwoClasses`: [0, d] is near-shortest but not shortest. */
  lemma TieSecondNearShortest(d: real)
    requires 10.0 < d <= 10.001
    ensures var p, gts := Point(5.0, 0.0, 100.0, 1.0), [Segment(0.0, 10.0), Segment(0.0, d)];
      NearShortest(NoSampling, p, gts, 1) && !Shortest(NoSampling, p, gts, 1)
  {
    var p, gts := Point(5.0, 0.0, 100.0, 1.0), [Segment(0.0, 10.0), Segment(0.0, d)];
    forall k | 0 <= k < |gts|
      ensures Duration(gts[1]) <= Duration(gts[k]) + 0.001
    {
      assert k == 0 || k == 1;
    }
    TieInside(d);
    assert Qualifies(NoSampling, p, gts[0]);
  }

  /** The tie rule can mark two classes at one point in single-label mode, while the
      regression target follows only the first shortest segment: segments [0, 10] of class 0
      and [0, d] of class 1, with 10 < d <= 10.001, both contain t = 5. */
  lemma TieMarksTwoClasses(d: real)
    requires 10.0 < d <= 10.001
    ensures var tg := AssignTargets(AssignConfig(2, false, NoSampling),
                                    [Point(5.0, 0.0, 100.0, 1.0)], [Segment(0.0, 10.0), Segment(0.0, d)], [0, 1]);
      tg.cls == [[1.0, 1.0]] && tg.reg == PerPoint([Offsets(5.0, 5.0)])
  {
    var cfg := AssignConfig(2, false, NoSampling);
    var pts, gts, labels := [Point(5.0, 0.0, 100.0, 1.0)], [Segment(0.0, 10.0), Segment(0.0, d)], [0, 1];
    TieFirstShortest(d);
    TieSecondNearShortest(d);
    SingleLabelClassification(cfg, pts, gts, labels, 0, 0);
    SingleLabelClassification(cfg, pts, gts, labels, 0, 1);
    SingleLabelRegression(cfg, pts, gts, labels, 0);
    var tg := AssignTargets(cfg, pts, gts, labels);
    assert tg.cls[0] == [1.0, 1.0];
    assert tg.reg.offsets == [Offsets(5.0, 5.0)];
  }
}
