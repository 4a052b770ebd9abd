/** The inference branch of `preprocessing`: padding one video's features to a length the
    pyramid can divide, and the validity mask; with `max_div_factor` from the constructor. */
module Preprocessing {
  import opened Wrappers
  import opened Arith

  /** `n_sgp_win_size` as configured: one window size for every level, or a list of sizes. */
  datatype WindowConfig = EveryLevel(size: int) | PerLevel(sizes: seq<int>)

  /** `self.sgp_win_size`: an int is repeated once per pyramid level; a list is kept when it has
      one entry per level, and otherwise the length assertion fails (None). */
  function WindowSizes(numLevels: nat, cfg: WindowConfig): (r: Option<seq<int>>)
    ensures r.Some? <==> (cfg.EveryLevel? || |cfg.sizes| == numLevels)
    ensures r.Some? ==> |r.value| == numLevels
    ensures r.Some? && cfg.EveryLevel? ==> forall l :: 0 <= l < numLevels ==> r.value[l] == cfg.size
    ensures r.Some? && cfg.PerLevel? ==> r.value == cfg.sizes
  {
    match cfg
    case EveryLevel(w) => Some(seq(numLevels, _ => w))
    case PerLevel(ws) => if |ws| == numLevels then Some(ws) else None
  }

  /** The divisor a level imposes: `s * w` when its local window is wider than 1, else `s`
      (window sizes of 1 or less, such as -1, switch the local window off). */
  function LevelDivisor(stride: nat, window: int): (r: nat)
    ensures window <= 1 ==> r == stride
    ensures window > 1 ==> r == stride * window && r >= stride
  {
    if window > 1 then stride * window else stride
  }

  /** The largest level divisor over the first levels, starting from 1: the value the loop of
      `__init__` leaves in `max_div_factor`. */
  function MaxDivisor(strides: seq<nat>, windows: seq<int>): nat
    requires |windows| == |strides|
    decreases |strides|
  {
    if |strides| == 0 then 1
    else
      var k := |strides| - 1;
      var m := MaxDivisor(strides[..k], windows[..k]);
      var d := LevelDivisor(strides[k], windows[k]);
      if m < d then d else m
  }

  /** `MaxDivisor` is at least 1, at least every level divisor, and one of them unless it is 1. */
  lemma {:induction false} MaxDivisorMeaning(strides: seq<nat>, windows: seq<int>)
    requires |windows| == |strides|
    ensures MaxDivisor(strides, windows) >= 1
    ensures forall l :: 0 <= l < |strides| ==> LevelDivisor(strides[l], windows[l]) <= MaxDivisor(strides, windows)
    ensures MaxDivisor(strides, windows) == 1
      || exists l :: 0 <= l < |strides| && MaxDivisor(strides, windows) == LevelDivisor(strides[l], windows[l])
    decreases |strides|
  {
    if |strides| > 0 {
      var k := |strides| - 1;
      var ps, pw := strides[..k], windows[..k];
      MaxDivisorMeaning(ps, pw);
      assert forall l :: 0 <= l < k ==> ps[l] == strides[l] && pw[l] == windows[l];
      var m := MaxDivisor(ps, pw);
      if m != 1 && m >= LevelDivisor(strides[k], windows[k]) {
        var l :| 0 <= l < k && m == LevelDivisor(ps[l], pw[l]);
        assert MaxDivisor(strides, windows) == LevelDivisor(strides[l], windows[l]);
      }
    }
  }

  /** With every local window switched off (the backbone default of -1 for every level), the
      factor is the largest stride, or 1 when there are no levels. */
  lemma NoWindowsDivisor(strides: seq<nat>, windows: seq<int>)
    requires |windows| == |strides|
    requires forall l :: 0 <= l < |windows| ==> windows[l] <= 1
    ensures forall l :: 0 <= l < |strides| ==> strides[l] <= MaxDivisor(strides, windows)
    ensures MaxDivisor(strides, windows) == 1
      || exists l :: 0 <= l < |strides| && MaxDivisor(strides, windows) == strides[l]
  {
    MaxDivisorMeaning(strides, windows);
  }

  /** The loop of `__init__` over `zip(fpn_strides, sgp_win_size)`, starting from 1 and keeping
      the largest level divisor. The window sizes have one entry per level, which
      `WindowSizes` guarantees. */
  method MaxDivFactor(strides: seq<nat>, windows: seq<int>) returns (m: nat)
    requires |windows| == |strides|
    ensures m == MaxDivisor(strides, windows)
    ensures m >= 1
    ensures forall l :: 0 <= l < |strides| ==> LevelDivisor(strides[l], windows[l]) <= m
    ensures m == 1 || exists l :: 0 <= l < |strides| && m == LevelDivisor(strides[l], windows[l])
  {
    m := 1;
    var l := 0;
    while l < |strides|
      invariant 0 <= l <= |strides|
      invariant m == MaxDivisor(strides[..l], windows[..l])
    {
      assert strides[..l + 1][..l] == strides[..l];
      assert windows[..l + 1][..l] == windows[..l];
      var stride := if windows[l] > 1 then strides[l] * windows[l] else strides[l];
      if m < stride {
        m := stride;
      }
      l := l + 1;
    }
    assert strides[..l] == strides && windows[..l] == windows;
    MaxDivisorMeaning(strides, windows);
  }

  /** Lines 233-242 of `__init__`: the window sizes for the levels, then the loop; None when
      a list of window sizes does not have one entry per level. */
  method ConfigureDivFactor(strides: seq<nat>, cfg: WindowConfig) returns (r: Option<nat>)
    ensures r.Some? <==> (cfg.EveryLevel? || |cfg.sizes| == |strides|)
    ensures r.Some? ==> r.value == MaxDivisor(strides, WindowSizes(|strides|, cfg).value)
  {
    var windows := WindowSizes(|strides|, cfg);
    if windows.None? {
      return None;
    }
    var m := MaxDivFactor(strides, windows.value);
    return Some(m);
  }

  /** `(n + (d - 1)) // d * d` is the smallest multiple of `d` that is at least `n`. */
  lemma RoundUp(n: nat, d: nat)
    requires d > 0
    ensures var r := (n + (d - 1)) / d * d;
      r % d == 0 && n <= r < n + d
  {
    var a := n + (d - 1);
    var q := a / d;
    assert a == q * d + a % d;
    assert (q * d) % d == 0 by {
      MulMod(q, d);
    }
  }

  lemma MulMod(q: nat, d: nat)
    requires d > 0
    ensures (q * d) % d == 0
  {
    var k := q * d;
    var a, b := k / d, k % d;
    assert k == a * d + b;
    if a < q {
      MulMono(a + 1, q, d);
    } else if a > q {
      MulMono(q + 1, a, d);
    }
  }

  /** `max_len` of the inference branch: `max_seq_len` for inputs no longer than it, else the
      input length rounded up to a multiple of `max_div_factor`. */
  function PaddedLength(featLen: nat, maxSeqLen: nat, maxDivFactor: nat): (r: nat)
    requires maxDivFactor > 0
    ensures featLen <= r
    ensures featLen <= maxSeqLen ==> r == maxSeqLen
    ensures featLen > maxSeqLen ==> r % maxDivFactor == 0 && r < featLen + maxDivFactor
  {
    if featLen <= maxSeqLen then maxSeqLen
    else
      RoundUp(featLen, maxDivFactor);
      (featLen + (maxDivFactor - 1)) / maxDivFactor * maxDivFactor
  }

  /** Inputs longer than `max_seq_len` are padded to the least admissible length: no multiple
      of `max_div_factor` between the input length and the padded length is smaller. */
  lemma PaddedLengthLeast(featLen: nat, maxSeqLen: nat, maxDivFactor: nat, r: nat)
    requires maxDivFactor > 0 && featLen > maxSeqLen
    requires featLen <= r && r % maxDivFactor == 0
    ensures PaddedLength(featLen, maxSeqLen, maxDivFactor) <= r
  {
    var d := maxDivFactor;
    var big := (featLen + (d - 1)) / d;
    var q := r / d;
    RoundUp(featLen, d);
    assert r == q * d;
    assert PaddedLength(featLen, maxSeqLen, d) == big * d;
    if q < big {
      MulMono(q + 1, big, d);
      MulSucc(q, d);
    } else {
      MulMono(big, q, d);
    }
  }

  /** `F.pad(feats[0], [0, max_len - len], value=padding_val)` and the mask
      `arange(max_len) < len` for one video of `C` channels of equal length. */
  function PadForInference(feats: seq<seq<real>>, featLen: nat, maxSeqLen: nat, maxDivFactor: nat, paddingVal: real)
    : (out: (seq<seq<real>>, seq<bool>))
    requires maxDivFactor > 0
    requires forall c :: 0 <= c < |feats| ==> |feats[c]| == featLen
    ensures var maxLen := PaddedLength(featLen, maxSeqLen, maxDivFactor);
      |out.0| == |feats| && |out.1| == maxLen
      && (forall i :: 0 <= i < maxLen ==> (out.1[i] <==> i < featLen))
      && forall c, i :: 0 <= c < |feats| && 0 <= i < maxLen ==>
        |out.0[c]| == maxLen && out.0[c][i] == (if out.1[i] then feats[c][i] else paddingVal)
  {
    var maxLen := PaddedLength(featLen, maxSeqLen, maxDivFactor);
    var padded := seq(|feats|, c requires 0 <= c < |feats| => feats[c] + seq(maxLen - featLen, _ => paddingVal));
    (padded, seq(maxLen, i => i < featLen))
  }
}
