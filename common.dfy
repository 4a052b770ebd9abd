/** Failure-compatible wrappers used by the dataset and the detection head. */
module Wrappers {

  datatype Option<+T> = None | Some(value: T)

  datatype Result<+T, +E> = Ok(value: T) | Err(error: E)
}

/** Value types shared by the detection head and the dataset: points, segments, offsets. */
module Points {

  /** One anchor of the feature pyramid: its location on the feature grid,
      the regression range of its level and the stride of its level. */
  datatype Point = Point(t: real, rangeMin: real, rangeMax: real, stride: real)

  /** A temporal segment; on the feature grid or in seconds depending on the stage. */
  datatype Segment = Segment(start: real, end: real)

  /** A pair of distances: towards the left (start) and the right (end) boundary. */
  datatype Offsets = Offsets(left: real, right: real)

  /** Points produced by the point generator always have a positive stride. */
  predicate PositiveStrides(pts: seq<Point>)
  {
    forall i :: 0 <= i < |pts| ==> pts[i].stride > 0.0
  }

  function Min(a: real, b: real): real
  {
    if a <= b then a else b
  }

  function Max(a: real, b: real): real
  {
    if a >= b then a else b
  }

  /** The length of a segment, in the units of its boundaries. */
  function Duration(g: Segment): real
  {
    g.end - g.start
  }

  /** The sum of the entries of a vector. */
  function Sum(p: seq<real>): real
    decreases |p|
  {
    if |p| == 0 then 0.0 else p[0] + Sum(p[1..])
  }
}

/** Monotonicity of multiplication by a natural number, used by the index arithmetic. */
module Arith {

  lemma MulMono(a: nat, b: nat, n: nat)
    requires a <= b
    ensures a * n <= b * n
  {
    var d := b - a;
    assert b * n == a * n + d * n;
  }

  lemma MulSucc(n: nat, k: nat)
    ensures (n + 1) * k == n * k + k
  {
  }
}
