/** One-dimensional piecewise-linear lookup tables: the reference interpreter's `lut1d`
    (`src/ir/eval.rs`) and the emitted C block and tangent block (`src/codegen/mod.rs`). */
module Lut {
  ghost predicate StrictlyIncreasing(points: seq<real>) {
    forall i, j | 0 <= i < j < |points| :: points[i] < points[j]
  }

  ghost predicate Table(points: seq<real>, values: seq<real>) {
    && 2 <= |points| == |values|
    && StrictlyIncreasing(points)
  }

  /** The last index in `1..m` whose breakpoint is at most `x`, or 0. */
  function SegmentUpTo(points: seq<real>, x: real, m: nat): (k: nat)
    requires m < |points|
    ensures k <= m
    ensures forall j | k < j <= m :: x < points[j]
    ensures k > 0 ==> points[k] <= x
  {
    if m == 0 then 0 else if x >= points[m] then m else SegmentUpTo(points, x, m - 1)
  }

  function Segment(points: seq<real>, x: real): (k: nat)
    requires 2 <= |points|
    ensures k + 1 < |points|
  {
    SegmentUpTo(points, x, |points| - 2)
  }

  /** The line through breakpoints `k` and `k + 1`, extended to all `x`. */
  function Line(points: seq<real>, values: seq<real>, k: nat, x: real): real
    requires k + 1 < |points| == |values|
    requires points[k] != points[k + 1]
  {
    values[k] + (x - points[k]) / (points[k + 1] - points[k]) * (values[k + 1] - values[k])
  }

  function Lookup(points: seq<real>, values: seq<real>, clamp: bool, x: real): real
    requires Table(points, values)
  {
    if clamp && x > points[|points| - 1] then values[|points| - 1]
    else if clamp && x < points[0] then values[0]
    else Line(points, values, Segment(points, x), x)
  }

  // ---------------------------------------------------------------------------------------
  // The emitted search and interpolation
  // ---------------------------------------------------------------------------------------

  /** The counted search: the last interior breakpoint that does not exceed `x`. */
  method FindSegment(points: seq<real>, x: real) returns (k: nat)
    requires 2 <= |points|
    ensures k == Segment(points, x)
  {
    k := 0;
    for j := 1 to |points| - 1
      invariant k == SegmentUpTo(points, x, j - 1)
    {
      if x >= points[j] {
        k := j;
      }
    }
  }

  /** `lut1d_block`: interpolate, then clamp. */
  method LutBlock(points: seq<real>, values: seq<real>, clamp: bool, x: real) returns (v: real)
    requires Table(points, values)
    ensures v == Lookup(points, values, clamp, x)
  {
    var k := FindSegment(points, x);
    var last := |points| - 1;
    v := Line(points, values, k, x);
    if clamp {
      if x > points[last] {
        v := values[last];
      } else if x < points[0] {
        v := values[0];
      }
    }
  }

  function Slope(points: seq<real>, values: seq<real>, k: nat): real
    requires k + 1 < |points| == |values| && points[k] != points[k + 1]
  {
    (values[k + 1] - values[k]) / (points[k + 1] - points[k])
  }

  function Tangent(points: seq<real>, values: seq<real>, clamp: bool, x: real, dx: real): real
    requires Table(points, values)
  {
    if clamp && Outside(points, x) then 0.0 else Slope(points, values, Segment(points, x)) * dx
  }

  predicate Outside(points: seq<real>, x: real)
    requires 2 <= |points|
  {
    x > points[|points| - 1] || x < points[0]
  }

  /** `lut1d_tangent_block`: the slope of the active segment, nothing outside a clamped table. */
  method TangentBlock(points: seq<real>, values: seq<real>, clamp: bool, x: real, dx: real) returns (d: real)
    requires Table(points, values)
    ensures d == Tangent(points, values, clamp, x, dx)
  {
    var k := FindSegment(points, x);
    d := Slope(points, values, k) * dx;
    if clamp && (x > points[|points| - 1] || x < points[0]) {
      d := 0.0;
    }
  }

  // ---------------------------------------------------------------------------------------
  // What they compute
  // ---------------------------------------------------------------------------------------

  /** The segment found is the one that contains `x`; the outer ones extend to infinity. */
  lemma {:induction false} SegmentContains(points: seq<real>, x: real, k: nat)
    requires 2 <= |points| && StrictlyIncreasing(points) && k + 1 < |points|
    ensures k == Segment(points, x) <==>
              (k > 0 ==> points[k] <= x) && (k + 2 < |points| ==> x < points[k + 1])
  {
    var s := Segment(points, x);
    assert s + 2 < |points| ==> x < points[s + 1];
    assert k < s ==> points[k + 1] <= points[s] <= x;
    assert s < k ==> x < points[s + 1] <= points[k];
  }

  /** Moving by `u` along the line through `(0, v)` and `(w, v + dv)`. */
  lemma {:induction false} LineEnds(v: real, dv: real, w: real)
    requires w > 0.0
    ensures v + 0.0 / w * dv == v && v + w / w * dv == v + dv
  {
  }

  lemma {:induction false} SignOfProduct(t: real, w: real)
    requires w > 0.0
    ensures t < 0.0 ==> t * w < 0.0
    ensures t > 0.0 ==> t * w > 0.0
  {
  }

  /** A line through two points stays between them, and so do its values. */
  lemma {:induction false} LineBetween(v: real, dv: real, u: real, w: real)
    requires w > 0.0 && 0.0 <= u <= w
    ensures dv >= 0.0 ==> v <= v + u / w * dv <= v + dv
    ensures dv <= 0.0 ==> v + dv <= v + u / w * dv <= v
  {
    var t := u / w;
    assert t * w == u;
    SignOfProduct(t, w);
    SignOfProduct(t - 1.0, w);
    assert (t - 1.0) * w == u - w;
    if dv >= 0.0 {
      assert t * dv >= 0.0 && (1.0 - t) * dv >= 0.0;
    } else {
      assert t * (-dv) >= 0.0 && (1.0 - t) * (-dv) >= 0.0;
    }
  }

  /** A line between two values within a range stays within it. */
  lemma {:induction false} LineWithin(v: real, dv: real, u: real, w: real, lo: real, hi: real)
    requires w > 0.0 && 0.0 <= u <= w && lo <= v <= hi && lo <= v + dv <= hi
    ensures lo <= v + u / w * dv <= hi
  {
    LineBetween(v, dv, u, w);
  }

  lemma {:induction false} SegmentStaysInRange(
      points: seq<real>, values: seq<real>, k: nat, x: real, lo: real, hi: real)
    requires k + 1 < |points| == |values| && points[k] < points[k + 1] && points[k] <= x <= points[k + 1]
    requires lo <= values[k] <= hi && lo <= values[k + 1] <= hi
    ensures lo <= Line(points, values, k, x) <= hi
  {
    LineWithin(values[k], values[k + 1] - values[k], x - points[k], points[k + 1] - points[k], lo, hi);
  }

  lemma {:induction false} LineDifference(v: real, dv: real, a: real, b: real, w: real)
    requires w > 0.0
    ensures (v + b / w * dv) - (v + a / w * dv) == dv / w * (b - a)
  {
    var i := 1.0 / w;
    assert b / w == b * i && a / w == a * i && dv / w == dv * i;
  }

  /** Every breakpoint is hit exactly, from whichever segment it is looked up. */
  lemma {:induction false} HitsBreakpoints(points: seq<real>, values: seq<real>, clamp: bool, i: nat)
    requires Table(points, values) && i < |points|
    ensures Lookup(points, values, clamp, points[i]) == values[i]
  {
    var k := if i + 1 < |points| then i else i - 1;
    SegmentContains(points, points[i], k);
    var v, dv, w := values[k], values[k + 1] - values[k], points[k + 1] - points[k];
    LineEnds(v, dv, w);
    assert points[i] - points[k] == if i == k then 0.0 else w;
  }

  /** A clamped lookup stays within the range of the table's values. */
  lemma {:induction false} ClampedStaysInRange(points: seq<real>, values: seq<real>, x: real, lo: real, hi: real)
    requires Table(points, values)
    requires forall i | 0 <= i < |values| :: lo <= values[i] <= hi
    ensures lo <= Lookup(points, values, true, x) <= hi
  {
    var last := |points| - 1;
    if points[0] <= x <= points[last] {
      var k := Segment(points, x);
      SegmentContains(points, x, k);
      SegmentStaysInRange(points, values, k, x, lo, hi);
    }
  }

  /** Within a segment the tangent is the exact difference quotient; strictly outside a clamped table
      both the tangent and every difference are 0. */
  lemma {:induction false} TangentIsTheDifference(points: seq<real>, values: seq<real>, clamp: bool, x: real, y: real)
    requires Table(points, values)
    requires if clamp && Outside(points, x) then (x > points[0]) == (y > points[0]) && Outside(points, y)
             else Segment(points, x) == Segment(points, y) && (clamp ==> !Outside(points, y))
    ensures Lookup(points, values, clamp, y) - Lookup(points, values, clamp, x) ==
            Tangent(points, values, clamp, x, y - x)
  {
    assert points[0] < points[|points| - 1];
    if !(clamp && Outside(points, x)) {
      var k := Segment(points, x);
      var v, dv, w := values[k], values[k + 1] - values[k], points[k + 1] - points[k];
      LineDifference(v, dv, x - points[k], y - points[k], w);
    }
  }

  /** Between two breakpoints, and beyond the outer ones, a lookup lies on the line through two values; a clamped one is
      the last value above the table and the first below it. */
  lemma {:induction false} LookupMeans(points: seq<real>, values: seq<real>, clamp: bool, x: real, k: nat)
    requires Table(points, values) && k + 1 < |points|
    requires (k > 0 ==> points[k] <= x) && (k + 2 < |points| ==> x < points[k + 1])
    ensures var last := |points| - 1;
            var v := Lookup(points, values, clamp, x);
            if clamp && x > points[last] then v == values[last]
            else if clamp && x < points[0] then v == values[0]
            else (v - values[k]) * (points[k + 1] - points[k]) == (x - points[k]) * (values[k + 1] - values[k])
  {
    SegmentContains(points, x, k);
    assert points[0] < points[|points| - 1];
    OnTheLine(values[k], values[k + 1] - values[k], x - points[k], points[k + 1] - points[k]);
  }

  lemma {:induction false} OnTheLine(v: real, dv: real, u: real, w: real)
    requires w > 0.0
    ensures (v + u / w * dv - v) * w == u * dv
  {
    var q := u / w;
    assert q * w == u;
    assert q * dv * w == q * w * dv;
  }
}
