/**
 * Axis-aligned bounding boxes (lib/dosemu-bbox.mjs): translation, quarter-turn
 * rotation and the overlap descriptor exchanged between overlap testing and
 * collision resolution. JavaScript numbers are modelled as exact reals.
 */
module BBox {
  import opened Common

  /** Extents relative to an origin; y grows downwards, so `up` is the top edge. */
  datatype Box = Box(up: real, down: real, left: real, right: real)

  /** The result of intersecting a reference box with another one. */
  datatype Overlap = Overlap(xRelative: real, yRelative: real, xOverlap: real, yOverlap: real)

  predicate WellFormed(b: Box)
  {
    b.up <= b.down && b.left <= b.right
  }

  function Width(b: Box): real
  {
    b.right - b.left
  }

  function Height(b: Box): real
  {
    b.down - b.up
  }

  /** `moveBoundingBox`: translation by (x, y). */
  function MoveBoundingBox(b: Box, x: real, y: real): (r: Box)
    ensures Width(r) == Width(b) && Height(r) == Height(b)
    ensures WellFormed(r) <==> WellFormed(b)
  {
    Box(b.up + y, b.down + y, b.left + x, b.right + x)
  }

  lemma MoveComposes(b: Box, x1: real, y1: real, x2: real, y2: real)
    ensures MoveBoundingBox(MoveBoundingBox(b, x1, y1), x2, y2) == MoveBoundingBox(b, x1 + x2, y1 + y2)
    ensures MoveBoundingBox(b, 0.0, 0.0) == b
  {
  }

  /** `rotateBBox`: a quarter turn clockwise about the origin. */
  function RotateBBox(b: Box): (r: Box)
    ensures Width(r) == Height(b) && Height(r) == Width(b)
    ensures WellFormed(b) ==> WellFormed(r)
  {
    Box(b.left, b.right, -b.down, -b.up)
  }

  /** Two quarter turns are a half turn: every edge is mirrored through the origin. */
  lemma RotateTwiceMirrors(b: Box)
    ensures RotateBBox(RotateBBox(b)) == Box(-b.down, -b.up, -b.right, -b.left)
  {
  }

  lemma RotateFourTimesIsIdentity(b: Box)
    ensures RotateBBox(RotateBBox(RotateBBox(RotateBBox(b)))) == b
  {
    RotateTwiceMirrors(b);
    RotateTwiceMirrors(RotateBBox(RotateBBox(b)));
  }

  /** The closed intervals [lo1, hi1] and [lo2, hi2] share a point. */
  predicate IntervalsMeet(lo1: real, hi1: real, lo2: real, hi2: real)
  {
    Max(lo1, lo2) <= Min(hi1, hi2)
  }

  /**
   * `getBoundingBoxOverlap(a, b)`: null when the boxes are apart on some
   * axis (strict comparisons, so boxes that only touch do overlap); otherwise
   * b's top-left corner relative to a's and the signed overlap on each axis:
   * positive when b covers a's right (bottom) side, negative when it covers
   * a's left (top) side.
   */
  function GetBoundingBoxOverlap(a: Box, b: Box): (r: Option<Overlap>)
    ensures WellFormed(a) && WellFormed(b) ==>
              (r.Some? <==> IntervalsMeet(a.up, a.down, b.up, b.down) && IntervalsMeet(a.left, a.right, b.left, b.right))
    ensures r.Some? ==> r.value.xRelative == b.left - a.left && r.value.yRelative == b.up - a.up
  {
    if a.down < b.up || b.down < a.up then None
    else if a.right < b.left || b.right < a.left then None
    else
      var rightOverlap := Min(a.right - a.left, a.right - b.left);
      var leftOverlap := Min(a.right - a.left, b.right - a.left);
      var downOverlap := Min(a.down - a.up, a.down - b.up);
      var upOverlap := Min(a.down - a.up, b.down - a.up);
      Some(Overlap(
        b.left - a.left,
        b.up - a.up,
        if rightOverlap > leftOverlap then -leftOverlap else rightOverlap,
        if downOverlap > upOverlap then -upOverlap else downOverlap))
  }

  /**
   * The signed depths: the overlap on an axis is negative exactly when b's
   * far edge lies strictly inside a's extent and b's centre lies before a's,
   * and then it is how far b reaches into a from that side; when positive it
   * is how far b reaches into a from the far side, capped at a's extent; its
   * magnitude never exceeds a's extent.
   */
  lemma OverlapDepth(a: Box, b: Box)
    requires WellFormed(a) && GetBoundingBoxOverlap(a, b).Some?
    ensures var o := GetBoundingBoxOverlap(a, b).value;
      (o.xOverlap < 0.0 <==> a.left < b.right < a.right && b.left + b.right < a.left + a.right) &&
      (o.xOverlap < 0.0 ==> o.xOverlap == a.left - b.right) &&
      (o.xOverlap > 0.0 ==> o.xOverlap == Min(Width(a), a.right - b.left)) &&
      Abs(o.xOverlap) <= Width(a)
    ensures var o := GetBoundingBoxOverlap(a, b).value;
      (o.yOverlap < 0.0 <==> a.up < b.down < a.down && b.up + b.down < a.up + a.down) &&
      (o.yOverlap < 0.0 ==> o.yOverlap == a.up - b.down) &&
      (o.yOverlap > 0.0 ==> o.yOverlap == Min(Height(a), a.down - b.up)) &&
      Abs(o.yOverlap) <= Height(a)
  {
  }

  /** Whether an overlap exists does not depend on the order of the boxes, and the
      relative position of the corners changes sign when they are swapped. */
  lemma OverlapSymmetric(a: Box, b: Box)
    ensures GetBoundingBoxOverlap(a, b).None? <==> GetBoundingBoxOverlap(b, a).None?
    ensures GetBoundingBoxOverlap(a, b).Some? ==>
              GetBoundingBoxOverlap(b, a).value.xRelative == -GetBoundingBoxOverlap(a, b).value.xRelative &&
              GetBoundingBoxOverlap(b, a).value.yRelative == -GetBoundingBoxOverlap(a, b).value.yRelative
  {
  }

  /** Boxes that only share an edge still overlap, with zero depth on that axis. */
  lemma TouchingEdgesOverlap(a: Box, b: Box)
    requires WellFormed(a) && WellFormed(b)
    requires a.right == b.left && a.left < a.right
    requires IntervalsMeet(a.up, a.down, b.up, b.down)
    ensures GetBoundingBoxOverlap(a, b).Some? && GetBoundingBoxOverlap(a, b).value.xOverlap == 0.0
  {
  }
}
