/** The bookkeeping of `losses`: the count of positive samples, the loss normaliser (an
    exponential moving average held in a field), label smoothing of the classification targets,
    and the combination of the two loss terms. The focal, IoU and DIoU loss values themselves
    are inputs. */
module Losses {
  import opened Points
  import opened Arith

  /** `loss_normalizer_momentum`. */
  const Momentum: real := 0.9

  /** Number of classes of a row with a positive target. */
  function PositiveClasses(row: seq<real>): (n: nat)
    ensures n <= |row|
    ensures n == 0 <==> forall c :: 0 <= c < |row| ==> row[c] <= 0.0
    decreases |row|
  {
    if |row| == 0 then 0
    else
      var k := |row| - 1;
      var prev := PositiveClasses(row[..k]);
      assert forall c :: 0 <= c < k ==> row[..k][c] == row[c];
      prev + (if row[k] > 0.0 then 1 else 0)
  }

  /** `pos_mask.sum()` over the first `n` points: in multi-label mode the valid (point, class)
      cells with a positive target, otherwise the valid points whose target row sums to
      more than 0. */
  function PositivesUpTo(gtCls: seq<seq<real>>, valid: seq<bool>, multiLabel: bool, n: nat): (r: nat)
    requires n <= |gtCls| == |valid|
    ensures r == 0 <==> forall i :: 0 <= i < n && valid[i] ==>
      if multiLabel then forall c :: 0 <= c < |gtCls[i]| ==> gtCls[i][c] <= 0.0 else Sum(gtCls[i]) <= 0.0
    ensures !multiLabel ==> r <= n
    decreases n
  {
    if n == 0 then 0
    else
      var prev := PositivesUpTo(gtCls, valid, multiLabel, n - 1);
      var row := gtCls[n - 1];
      prev + (if !valid[n - 1] then 0 else if multiLabel then PositiveClasses(row) else if Sum(row) > 0.0 then 1 else 0)
  }

  function NumPositives(gtCls: seq<seq<real>>, valid: seq<bool>, multiLabel: bool): nat
    requires |gtCls| == |valid|
  {
    PositivesUpTo(gtCls, valid, multiLabel, |gtCls|)
  }

  /** The classes of a row with a positive target. */
  function PositiveCells(row: seq<real>): set<nat>
  {
    set c: nat | c < |row| && row[c] > 0.0
  }

  /** `PositiveClasses` counts exactly the positive cells of the row. */
  lemma {:induction false} PositiveClassesCount(row: seq<real>)
    ensures PositiveClasses(row) == |PositiveCells(row)|
    decreases |row|
  {
    if |row| > 0 {
      var k := |row| - 1;
      var init := row[..k];
      PositiveClassesCount(init);
      assert forall c :: 0 <= c < k ==> init[c] == row[c];
      if row[k] > 0.0 {
        assert PositiveCells(row) == PositiveCells(init) + {k};
      } else {
        assert PositiveCells(row) == PositiveCells(init);
      }
    }
  }

  /** The valid points among the first `n` whose target row sums to more than 0. */
  function PositiveRows(gtCls: seq<seq<real>>, valid: seq<bool>, n: nat): set<nat>
    requires n <= |gtCls| == |valid|
  {
    set i: nat | i < n && valid[i] && Sum(gtCls[i]) > 0.0
  }

  /** Single-label mode: `num_pos` is the number of valid points with a positive target row. */
  lemma {:induction false} SingleLabelPositives(gtCls: seq<seq<real>>, valid: seq<bool>, n: nat)
    requires n <= |gtCls| == |valid|
    ensures PositivesUpTo(gtCls, valid, false, n) == |PositiveRows(gtCls, valid, n)|
    decreases n
  {
    if n > 0 {
      SingleLabelPositives(gtCls, valid, n - 1);
      var prev := PositiveRows(gtCls, valid, n - 1);
      if valid[n - 1] && Sum(gtCls[n - 1]) > 0.0 {
        assert PositiveRows(gtCls, valid, n) == prev + {n - 1};
      } else {
        assert PositiveRows(gtCls, valid, n) == prev;
      }
    }
  }

  /** Multi-label mode: each of the first `n` points adds its number of positive classes
      when it is valid, so `num_pos` is at most `n * num_classes`. */
  lemma {:induction false} MultiLabelPositives(gtCls: seq<seq<real>>, valid: seq<bool>, n: nat, numClasses: nat)
    requires n <= |gtCls| == |valid|
    requires forall i :: 0 <= i < |gtCls| ==> |gtCls[i]| == numClasses
    ensures n > 0 ==> (PositivesUpTo(gtCls, valid, true, n)
      == PositivesUpTo(gtCls, valid, true, n - 1) + (if valid[n - 1] then |PositiveCells(gtCls[n - 1])| else 0))
    ensures PositivesUpTo(gtCls, valid, true, n) <= n * numClasses
    decreases n
  {
    if n > 0 {
      MultiLabelPositives(gtCls, valid, n - 1, numClasses);
      PositiveClassesCount(gtCls[n - 1]);
      MulSucc(n - 1, numClasses);
    }
  }

  /** One update of the normaliser: `0.9 * old + (1 - 0.9) * max(num_pos, 1)`. The new value
      moves one tenth of the way towards `max(num_pos, 1)`, so it stays at least 1 once it is
      at least 1, and stays positive once it is positive. */
  function EmaStep(value: real, numPos: nat): (r: real)
    ensures var target := Max(numPos as real, 1.0);
      r - target == Momentum * (value - target)
    ensures value >= 1.0 ==> r >= 1.0
    ensures value > 0.0 ==> r > 0.0
    ensures value >= 0.0 ==> r >= 0.1
  {
    Momentum * value + (1.0 - Momentum) * Max(numPos as real, 1.0)
  }

  /** A distance multiplied `k` times by `Momentum`. */
  function Shrink(dist: real, k: nat): real
    decreases k
  {
    if k == 0 then dist else Momentum * Shrink(dist, k - 1)
  }

  /** `k` updates with the same positive count, applied one after the other. */
  function EmaRepeat(value: real, numPos: nat, k: nat): real
    decreases k
  {
    if k == 0 then value else EmaStep(EmaRepeat(value, numPos, k - 1), numPos)
  }

  /** The closed form of repeated updates: the distance to `max(num_pos, 1)` is multiplied by
      0.9 per call. */
  lemma {:induction false} EmaRepeatClosedForm(value: real, numPos: nat, k: nat)
    ensures var target := Max(numPos as real, 1.0);
      EmaRepeat(value, numPos, k) - target == Shrink(value - target, k)
    decreases k
  {
    if k > 0 {
      EmaRepeatClosedForm(value, numPos, k - 1);
    }
  }

  /** A shrunk distance keeps its sign and never grows. */
  lemma {:induction false} ShrinkBounds(dist: real, k: nat)
    ensures dist >= 0.0 ==> 0.0 <= Shrink(dist, k) <= dist
    ensures dist <= 0.0 ==> dist <= Shrink(dist, k) <= 0.0
    decreases k
  {
    if k > 0 {
      ShrinkBounds(dist, k - 1);
    }
  }

  /** The normaliser of the detection head: `self.loss_normalizer`, starting at
      `init_loss_norm` and updated once per `losses` call. */
  class LossNormalizer {
    var value: real

    constructor(initLossNorm: real)
      ensures value == initLossNorm
    {
      value := initLossNorm;
    }

    /** The update inside `losses`: counts the positive samples and moves the average. */
    method Update(gtCls: seq<seq<real>>, valid: seq<bool>, multiLabel: bool) returns (numPos: nat)
      requires |gtCls| == |valid|
      modifies this
      ensures numPos == NumPositives(gtCls, valid, multiLabel)
      ensures value == EmaStep(old(value), numPos)
    {
      numPos := NumPositives(gtCls, valid, multiLabel);
      value := Momentum * value + (1.0 - Momentum) * Max(numPos as real, 1.0);
    }
  }

  /** The smoothed target `y * (1 - eps) + eps / (num_classes + 1)`. */
  function Smooth(y: real, eps: real, numClasses: nat): (r: real)
    ensures y == 0.0 ==> r == eps / (numClasses as real + 1.0)
    ensures y == 1.0 ==> r == 1.0 - eps + eps / (numClasses as real + 1.0)
  {
    y * (1.0 - eps) + eps / (numClasses as real + 1.0)
  }

  /** With `0 <= eps <= 1`, a target in `[0, 1]` stays in `[0, 1]` after smoothing. */
  lemma SmoothRange(y: real, eps: real, numClasses: nat)
    requires 0.0 <= eps <= 1.0 && 0.0 <= y <= 1.0
    ensures 0.0 <= Smooth(y, eps, numClasses) <= 1.0
  {
    var floor := eps / (numClasses as real + 1.0);
    assert floor <= eps by {
      assert floor * (numClasses as real + 1.0) == eps;
      MulNonneg(floor, numClasses as real);
    }
    MulNonneg(1.0 - y, 1.0 - eps);
    MulNonneg(y, 1.0 - eps);
  }

  lemma MulNonneg(a: real, b: real)
    requires a >= 0.0 && b >= 0.0
    ensures a * b >= 0.0
  {
  }

  /** `rated_mask`: the smoothed targets above the smoothing floor are exactly the positive
      targets, as long as `eps < 1`. */
  lemma RatedMaskMeansPositive(y: real, eps: real, numClasses: nat)
    requires eps < 1.0
    ensures Smooth(y, eps, numClasses) > eps / (numClasses as real + 1.0) <==> y > 0.0
  {
    if y > 0.0 {
      assert y * (1.0 - eps) > 0.0;
    } else {
      assert y * (1.0 - eps) <= 0.0 by {
        assert (-y) * (1.0 - eps) >= 0.0;
      }
    }
  }

  /** Label smoothing of the flattened targets of the valid points, in place: first
      `gt_target *= 1 - eps`, then `gt_target += eps / (num_classes + 1)`. */
  method SmoothTargets(a: array<real>, eps: real, numClasses: nat)
    modifies a
    ensures forall i :: 0 <= i < a.Length ==> a[i] == Smooth(old(a[i]), eps, numClasses)
  {
    var i := 0;
    while i < a.Length
      invariant 0 <= i <= a.Length
      invariant forall k :: 0 <= k < i ==> a[k] == old(a[k]) * (1.0 - eps)
      invariant forall k :: i <= k < a.Length ==> a[k] == old(a[k])
    {
      a[i] := a[i] * (1.0 - eps);
      i := i + 1;
    }
    i := 0;
    while i < a.Length
      invariant 0 <= i <= a.Length
      invariant forall k :: 0 <= k < i ==> a[k] == Smooth(old(a[k]), eps, numClasses)
      invariant forall k :: i <= k < a.Length ==> a[k] == old(a[k]) * (1.0 - eps)
    {
      a[i] := a[i] + eps / (numClasses as real + 1.0);
      i := i + 1;
    }
  }

  /** `reg_loss`: zero without positive samples, else the DIoU sum over the normaliser. */
  function RegLoss(numPos: nat, diouSum: real, normalizer: real): real
    requires normalizer > 0.0
  {
    if numPos == 0 then 0.0 else diouSum / normalizer
  }

  /** `loss_weight`: the configured weight when positive, else `cls_loss / max(reg_loss, 0.01)`. */
  function LossWeight(trainLossWeight: real, clsLoss: real, regLoss: real): (w: real)
    ensures trainLossWeight > 0.0 ==> w == trainLossWeight
    ensures trainLossWeight <= 0.0 ==> w * Max(regLoss, 0.01) == clsLoss
  {
    if trainLossWeight > 0.0 then trainLossWeight else clsLoss / Max(regLoss, 0.01)
  }

  function FinalLoss(clsLoss: real, regLoss: real, trainLossWeight: real): real
  {
    clsLoss + regLoss * LossWeight(trainLossWeight, clsLoss, regLoss)
  }

  /** With the dynamic weight, the weighted regression term equals the classification term
      whenever the regression loss is at least 0.01; without positive samples the final loss
      is the classification loss alone. */
  lemma DynamicWeightBalances(clsLoss: real, numPos: nat, diouSum: real, normalizer: real, trainLossWeight: real)
    requires normalizer > 0.0
    ensures var reg := RegLoss(numPos, diouSum, normalizer);
      (trainLossWeight <= 0.0 && reg >= 0.01 ==> FinalLoss(clsLoss, reg, trainLossWeight) == 2.0 * clsLoss)
      && (numPos == 0 ==> FinalLoss(clsLoss, reg, trainLossWeight) == clsLoss)
  {
    var reg := RegLoss(numPos, diouSum, normalizer);
    if trainLossWeight <= 0.0 && reg >= 0.01 {
      assert reg * LossWeight(trainLossWeight, clsLoss, reg) == clsLoss;
    }
  }
}
