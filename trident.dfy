/** The Trident head's boundary bins: the sliding windows of `num_bins + 1` start/end logits
    built with `F.pad` + `as_strided`, and the expectation step of `decode_offset` that turns a
    (given, already softmax-normalised) bin distribution into a distance. */
module Trident {
  import opened Points

  function Zeros(n: nat): (z: seq<real>)
    ensures |z| == n && forall i :: 0 <= i < n ==> z[i] == 0.0
  {
    seq(n, _ => 0.0)
  }

  /** The start window at position `t`: the `num_bins + 1` entries of the start-logit sequence
      padded on the left with `num_bins` zeros, starting at padded index `t`. */
  function StartWindow(xs: seq<real>, numBins: nat, t: nat): (w: seq<real>)
    requires t < |xs|
    ensures |w| == numBins + 1
    ensures forall j :: 0 <= j <= numBins ==>
      w[j] == (if t + j >= numBins then xs[t + j - numBins] else 0.0)
  {
    var padded := Zeros(numBins) + xs;
    padded[t..t + numBins + 1]
  }

  /** The end window at position `t`: the `num_bins + 1` entries of the end-logit sequence
      padded on the right with `num_bins` zeros, starting at index `t`. */
  function EndWindow(xs: seq<real>, numBins: nat, t: nat): (w: seq<real>)
    requires t < |xs|
    ensures |w| == numBins + 1
    ensures forall j :: 0 <= j <= numBins ==> w[j] == (if t + j < |xs| then xs[t + j] else 0.0)
  {
    var padded := xs + Zeros(numBins);
    padded[t..t + numBins + 1]
  }

  /** `as_strided` with size `(T, num_bins + 1)`: one start window per position of the level. */
  function StartWindows(xs: seq<real>, numBins: nat): (ws: seq<seq<real>>)
    ensures |ws| == |xs|
    ensures forall t, j :: 0 <= t < |xs| && 0 <= j <= numBins ==>
      |ws[t]| == numBins + 1 && ws[t][j] == (if t + j >= numBins then xs[t + j - numBins] else 0.0)
  {
    seq(|xs|, t requires 0 <= t < |xs| => StartWindow(xs, numBins, t))
  }

  /** One end window per position of the level. */
  function EndWindows(xs: seq<real>, numBins: nat): (ws: seq<seq<real>>)
    ensures |ws| == |xs|
    ensures forall t, j :: 0 <= t < |xs| && 0 <= j <= numBins ==>
      |ws[t]| == numBins + 1 && ws[t][j] == (if t + j < |xs| then xs[t + j] else 0.0)
  {
    seq(|xs|, t requires 0 <= t < |xs| => EndWindow(xs, numBins, t))
  }

  /** Bin weights of the left distance: `arange(n - 1, -1, -1)`. */
  function LeftBins(n: nat): (b: seq<real>)
    ensures |b| == n && forall j :: 0 <= j < n ==> b[j] == (n - 1 - j) as real
  {
    seq(n, j requires 0 <= j < n => (n - 1 - j) as real)
  }

  /** Bin weights of the right distance: `arange(n)`. */
  function RightBins(n: nat): (b: seq<real>)
    ensures |b| == n && forall j :: 0 <= j < n ==> b[j] == j as real
  {
    seq(n, j requires 0 <= j < n => j as real)
  }

  /** The two weight vectors mirror each other: the left weights descend strictly from
      `n - 1` to 0, the right ones ascend strictly from 0, and the left weight of bin `j` is the
      right weight of bin `n - 1 - j`. */
  lemma BinsMirror(n: nat)
    ensures forall j :: 0 <= j < n ==> LeftBins(n)[j] == RightBins(n)[n - 1 - j]
    ensures forall i, j :: 0 <= i < j < n ==> LeftBins(n)[i] > LeftBins(n)[j] && RightBins(n)[i] < RightBins(n)[j]
    ensures n > 0 ==> LeftBins(n)[0] == RightBins(n)[n - 1] == (n - 1) as real
    ensures n > 0 ==> LeftBins(n)[n - 1] == RightBins(n)[0] == 0.0
  {
  }

  /** Dot product; `matmul` of one row with a column vector. */
  function Dot(p: seq<real>, v: seq<real>): real
    requires |p| == |v|
    decreases |p|
  {
    if |p| == 0 then 0.0 else p[0] * v[0] + Dot(p[1..], v[1..])
  }

  /** A probability vector: non-negative entries summing to 1, as a softmax produces. */
  predicate Distribution(p: seq<real>)
  {
    (forall j :: 0 <= j < |p| ==> p[j] >= 0.0) && Sum(p) == 1.0
  }

  /** The one-hot vector of length `n` at bin `k`. */
  function OneHotVec(n: nat, k: nat): (e: seq<real>)
    ensures |e| == n && forall j :: 0 <= j < n ==> e[j] == (if j == k then 1.0 else 0.0)
  {
    seq(n, j requires 0 <= j < n => if j == k then 1.0 else 0.0)
  }

  /** Expected left distance of a bin distribution. */
  function DecodeLeft(p: seq<real>): real
  {
    Dot(p, LeftBins(|p|))
  }

  /** Expected right distance of a bin distribution. */
  function DecodeRight(p: seq<real>): real
  {
    Dot(p, RightBins(|p|))
  }

  /** The decoded offsets of one point (and class): the pair of expectations. */
  function DecodeOffset(leftDis: seq<real>, rightDis: seq<real>): (o: Offsets)
    requires |leftDis| == |rightDis| > 0
    ensures Distribution(leftDis) && Distribution(rightDis) ==>
      0.0 <= o.left <= (|leftDis| - 1) as real && 0.0 <= o.right <= (|rightDis| - 1) as real
  {
    DecodeWithinBins(leftDis);
    DecodeWithinBins(rightDis);
    Offsets(DecodeLeft(leftDis), DecodeRight(rightDis))
  }

  /** When every weight lies in `[lo, hi]`, a non-negative vector's dot product lies between
      `lo` and `hi` times its sum. */
  lemma {:induction false} DotBounds(p: seq<real>, v: seq<real>, lo: real, hi: real)
    requires |p| == |v|
    requires forall j :: 0 <= j < |p| ==> p[j] >= 0.0
    requires forall j :: 0 <= j < |v| ==> lo <= v[j] <= hi
    ensures lo * Sum(p) <= Dot(p, v) <= hi * Sum(p)
  {
    if |p| > 0 {
      DotBounds(p[1..], v[1..], lo, hi);
      BoundsStep(p[0], v[0], Sum(p[1..]), Dot(p[1..], v[1..]), lo, hi);
    }
  }

  /** One step of `DotBounds`: adding a weighted term in `[lo, hi]` keeps the bounds. */
  lemma BoundsStep(w: real, x: real, s: real, d: real, lo: real, hi: real)
    requires w >= 0.0 && lo <= x <= hi
    requires lo * s <= d <= hi * s
    ensures lo * (w + s) <= w * x + d <= hi * (w + s)
  {
    assert w * lo <= w * x <= w * hi by {
      assert w * (x - lo) >= 0.0;
      assert w * (hi - x) >= 0.0;
    }
  }

  /** Any probability vector over `num_bins + 1` bins decodes to distances in `[0, num_bins]`. */
  lemma DecodeWithinBins(p: seq<real>)
    requires |p| > 0
    ensures Distribution(p) ==> 0.0 <= DecodeLeft(p) <= (|p| - 1) as real
    ensures Distribution(p) ==> 0.0 <= DecodeRight(p) <= (|p| - 1) as real
  {
    if Distribution(p) {
      DotBounds(p, LeftBins(|p|), 0.0, (|p| - 1) as real);
      DotBounds(p, RightBins(|p|), 0.0, (|p| - 1) as real);
    }
  }

  /** A one-hot vector picks out the weight at its bin. */
  lemma {:induction false} DotOneHot(n: nat, k: nat, v: seq<real>)
    requires |v| == n && k < n
    ensures Dot(OneHotVec(n, k), v) == v[k]
    decreases n
  {
    var e := OneHotVec(n, k);
    if k == 0 {
      DotZero(e[1..], v[1..]);
    } else {
      assert e[1..] == OneHotVec(n - 1, k - 1);
      DotOneHot(n - 1, k - 1, v[1..]);
    }
  }

  /** The all-zero vector (a distribution masked out as NaN) decodes to 0. */
  lemma {:induction false} DotZero(p: seq<real>, v: seq<real>)
    requires |p| == |v|
    requires forall j :: 0 <= j < |p| ==> p[j] == 0.0
    ensures Dot(p, v) == 0.0
    decreases |p|
  {
    if |p| > 0 {
      DotZero(p[1..], v[1..]);
    }
  }

  /** A distribution concentrated on bin `k` decodes to left distance `num_bins - k` and right
      distance `k`. */
  lemma OneHotDecodes(numBins: nat, k: nat)
    requires k <= numBins
    ensures DecodeLeft(OneHotVec(numBins + 1, k)) == (numBins - k) as real
    ensures DecodeRight(OneHotVec(numBins + 1, k)) == k as real
  {
    DotOneHot(numBins + 1, k, LeftBins(numBins + 1));
    DotOneHot(numBins + 1, k, RightBins(numBins + 1));
  }

  /** A zero vector decodes to zero offsets. */
  lemma ZeroDecodes(n: nat)
    requires n > 0
    ensures DecodeOffset(Zeros(n), Zeros(n)) == Offsets(0.0, 0.0)
  {
    DotZero(Zeros(n), LeftBins(n));
    DotZero(Zeros(n), RightBins(n));
  }

  /** The windows and the bin weights agree: entry `j` of the start window at `t` is the start
      logit `num_bins - j` positions before `t` (the left bin weight of `j`), and entry `j` of
      the end window is the end logit `j` positions after `t` (the right bin weight of `j`). */
  lemma WindowsMatchBins(startLogits: seq<real>, endLogits: seq<real>, numBins: nat, t: nat, j: nat)
    requires t < |startLogits| && t < |endLogits| && j <= numBins
    ensures var d := LeftBins(numBins + 1)[j].Floor;
      d == numBins - j
      && (d <= t ==> StartWindow(startLogits, numBins, t)[j] == startLogits[t - d])
      && (d > t ==> StartWindow(startLogits, numBins, t)[j] == 0.0)
    ensures var d := RightBins(numBins + 1)[j].Floor;
      d == j
      && (t + d < |endLogits| ==> EndWindow(endLogits, numBins, t)[j] == endLogits[t + d])
      && (t + d >= |endLogits| ==> EndWindow(endLogits, numBins, t)[j] == 0.0)
  {
  }
}
