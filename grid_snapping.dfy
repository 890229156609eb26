/** The line-angle snapper (src/utils/grid-snapping.ts).

    The snapper never sees the deltas' angle as the source computes it with
    `Math.atan2`: the angle in degrees is a parameter of `SnapLine`, and
    `AngleOnAxes` states the few exact values of atan2 the lemmas rely on. */
module GridSnapping {
  import opened Types

  datatype SnapType = Horizontal | Vertical | Diagonal45 | Diagonal135

  /** `SnapResult`; `snapType` is None exactly when nothing was snapped. */
  datatype SnapResult = SnapResult(x: real, y: real, snapped: bool, snapType: Option<SnapType>)

  function Abs(v: real): real
  {
    if v < 0.0 then -v else v
  }

  /** `Math.sign`. */
  function Sign(v: real): real
  {
    if v > 0.0 then 1.0 else if v < 0.0 then -1.0 else 0.0
  }

  function Min(a: real, b: real): real
  {
    if a < b then a else b
  }

  /** The remainder of a non-negative x by 360. */
  function PositiveRem360(x: real): (r: real)
    requires x >= 0.0
    ensures 0.0 <= r < 360.0
    ensures IsMultipleOf360(x - r)
  {
    var q := (x / 360.0).Floor;
    assert q as real <= x / 360.0 < q as real + 1.0;
    var r := x - 360.0 * q as real;
    assert (x - r) / 360.0 == q as real;
    r
  }

  /** JavaScript's `a % 360`: the remainder of the division truncated toward zero,
      which carries the sign of a. */
  function JsRem360(a: real): (r: real)
    ensures -360.0 < r < 360.0
    ensures a >= 0.0 ==> r >= 0.0
    ensures a <= 0.0 ==> r <= 0.0
    ensures IsMultipleOf360(a - r)
  {
    if a >= 0.0 then PositiveRem360(a)
    else
      var r := PositiveRem360(-a);
      MultipleOf360Neg(-a - r);
      assert a - -r == -(-a - r);
      -r
  }

  /** d is 360 times an integer. */
  predicate IsMultipleOf360(d: real)
  {
    (d / 360.0).Floor as real == d / 360.0
  }

  lemma MultipleOf360Neg(d: real)
    requires IsMultipleOf360(d)
    ensures IsMultipleOf360(-d)
  {
    var k := (d / 360.0).Floor;
    assert -d / 360.0 == -(d / 360.0);
    assert -d / 360.0 == (-k) as real;
    assert ((-k) as real).Floor == -k;
  }

  lemma MultipleOf360Sum(a: real, b: real)
    requires IsMultipleOf360(a) && IsMultipleOf360(b)
    ensures IsMultipleOf360(a + b)
  {
    var i, j := (a / 360.0).Floor, (b / 360.0).Floor;
    assert (a + b) / 360.0 == a / 360.0 + b / 360.0;
    assert (a + b) / 360.0 == (i + j) as real;
    assert ((i + j) as real).Floor == i + j;
  }

  /** `((angleDeg % 360) + 360) % 360`: an angle in [0, 360) that differs from the
      input by whole turns; angles already in [0, 360) are left alone and the
      negative half of atan2's range is shifted up by one turn. */
  function NormalizeAngle(angleDeg: real): (r: real)
    ensures 0.0 <= r < 360.0
    ensures IsMultipleOf360(angleDeg - r)
    ensures 0.0 <= angleDeg < 360.0 ==> r == angleDeg
    ensures -360.0 < angleDeg < 0.0 ==> r == angleDeg + 360.0
  {
    var once := JsRem360(angleDeg);
    var r := JsRem360(once + 360.0);
    assert IsMultipleOf360(-360.0) by {
      assert -360.0 / 360.0 == -1.0;
    }
    MultipleOf360Sum(angleDeg - once, once + 360.0 - r);
    MultipleOf360Sum(angleDeg - r + 360.0, -360.0);
    assert 0.0 <= angleDeg < 360.0 ==> once == angleDeg;
    r
  }

  /** `isCloseToAngle`: the angle is within the tolerance of the target, measured
      with a wrap-around of one turn in either direction. */
  predicate IsCloseToAngle(currentAngle: real, targetAngle: real, tolerance: real)
  {
    var diff := Min(Abs(currentAngle - targetAngle),
                    Min(Abs(currentAngle - targetAngle + 360.0), Abs(currentAngle - targetAngle - 360.0)));
    diff <= tolerance
  }

  /** The distance between two directions on the circle of degrees. */
  function CircularDistance(a: real, b: real): real
  {
    var d := Abs(a - b);
    Min(d, 360.0 - d)
  }

  /** For angles in [0, 360) the three-way minimum of `isCloseToAngle` is the
      circular distance, so closeness is symmetric in its two angles. */
  lemma CloseToAngleIsCircular(a: real, b: real, tolerance: real)
    requires 0.0 <= a < 360.0 && 0.0 <= b < 360.0
    ensures IsCloseToAngle(a, b, tolerance) <==> CircularDistance(a, b) <= tolerance
    ensures IsCloseToAngle(a, b, tolerance) <==> IsCloseToAngle(b, a, tolerance)
  {
  }

  /** 359 degrees is within one degree of 0 degrees, across the wrap. */
  lemma WrapAroundExample()
    ensures IsCloseToAngle(359.0, 0.0, 1.0)
    ensures !IsCloseToAngle(358.0, 0.0, 1.0)
  {
  }

  /** The two directions a snap test accepts: target and target + 180 degrees. */
  predicate NearAxis(normalizedAngle: real, target: real, tolerance: real)
  {
    IsCloseToAngle(normalizedAngle, target, tolerance) ||
    IsCloseToAngle(normalizedAngle, target + 180.0, tolerance)
  }

  /** The exact values `Math.atan2(dy, dx) * 180 / Math.PI` takes on the axes, and
      its range (-180, 180]. */
  predicate AngleOnAxes(dx: real, dy: real, angleDeg: real)
  {
    -180.0 < angleDeg <= 180.0 &&
    (dy == 0.0 && dx >= 0.0 ==> angleDeg == 0.0) &&
    (dy == 0.0 && dx < 0.0 ==> angleDeg == 180.0) &&
    (dx == 0.0 && dy > 0.0 ==> angleDeg == 90.0) &&
    (dx == 0.0 && dy < 0.0 ==> angleDeg == -90.0)
  }

  /** (|dx| + |dy|) / 2, the common length of both legs of a diagonal snap. */
  function AverageDelta(dx: real, dy: real): (avg: real)
    ensures avg >= 0.0
    ensures dx != 0.0 || dy != 0.0 ==> avg > 0.0
  {
    (Abs(dx) + Abs(dy)) / 2.0
  }

  lemma ScaledSign(a: real, v: real)
    requires a >= 0.0 && (v != 0.0 ==> a > 0.0)
    ensures Sign(a * Sign(v)) == Sign(v)
    ensures v != 0.0 ==> Abs(a * Sign(v)) == a
  {
  }

  /** The partial settings object spread over the current one: a supplied field
      replaces the current value, an omitted one keeps it. */
  function MergeGridSnap(current: GridSnapSettings, update: GridSnapUpdate): (r: GridSnapSettings)
    ensures update.enabled.Some? ==> r.enabled == update.enabled.value
    ensures update.enabled.None? ==> r.enabled == current.enabled
    ensures update.orthogonalSnapAngle.Some? ==> r.orthogonalSnapAngle == update.orthogonalSnapAngle.value
    ensures update.orthogonalSnapAngle.None? ==> r.orthogonalSnapAngle == current.orthogonalSnapAngle
    ensures update.diagonalSnapAngle.Some? ==> r.diagonalSnapAngle == update.diagonalSnapAngle.value
    ensures update.diagonalSnapAngle.None? ==> r.diagonalSnapAngle == current.diagonalSnapAngle
    ensures update.enableDiagonalSnap.Some? ==> r.enableDiagonalSnap == update.enableDiagonalSnap.value
    ensures update.enableDiagonalSnap.None? ==> r.enableDiagonalSnap == current.enableDiagonalSnap
  {
    GridSnapSettings(
      if update.enabled.Some? then update.enabled.value else current.enabled,
      if update.orthogonalSnapAngle.Some? then update.orthogonalSnapAngle.value else current.orthogonalSnapAngle,
      if update.diagonalSnapAngle.Some? then update.diagonalSnapAngle.value else current.diagonalSnapAngle,
      if update.enableDiagonalSnap.Some? then update.enableDiagonalSnap.value else current.enableDiagonalSnap)
  }

  /** An empty update changes nothing, and merging the same update twice is the
      same as merging it once. */
  lemma MergeGridSnapIdentity(current: GridSnapSettings, update: GridSnapUpdate)
    ensures MergeGridSnap(current, GridSnapUpdate(None, None, None, None)) == current
    ensures MergeGridSnap(MergeGridSnap(current, update), update) == MergeGridSnap(current, update)
  {
  }

  class GridSnapper {
    var settings: GridSnapSettings

    constructor (settings: GridSnapSettings)
      ensures this.settings == settings
    {
      this.settings := settings;
    }

    /** `updateSettings`. */
    method UpdateSettings(update: GridSnapUpdate)
      modifies this
      ensures settings == MergeGridSnap(old(settings), update)
    {
      settings := MergeGridSnap(settings, update);
    }

    /** `snapLine`: the first of horizontal, vertical, 45 and 135 degrees (the
        diagonals only when enabled) whose test accepts the angle decides the
        result; with none, or with snapping off, the end point is returned. */
    function SnapLine(startX: real, startY: real, endX: real, endY: real, angleDeg: real): (r: SnapResult)
      reads this
      ensures r.snapped <==> r.snapType.Some?
      ensures !r.snapped ==> r.x == endX && r.y == endY
      ensures !settings.enabled ==> !r.snapped
      ensures r.snapType == Some(Horizontal) <==>
                settings.enabled && NearAxis(NormalizeAngle(angleDeg), 0.0, settings.orthogonalSnapAngle)
      ensures r.snapType == Some(Horizontal) ==> r.x == endX && r.y == startY
      ensures r.snapType == Some(Vertical) <==>
                settings.enabled && !NearAxis(NormalizeAngle(angleDeg), 0.0, settings.orthogonalSnapAngle) &&
                NearAxis(NormalizeAngle(angleDeg), 90.0, settings.orthogonalSnapAngle)
      ensures r.snapType == Some(Vertical) ==> r.x == startX && r.y == endY
      ensures !settings.enableDiagonalSnap ==> r.snapType != Some(Diagonal45) && r.snapType != Some(Diagonal135)
      ensures r.snapType == Some(Diagonal45) <==>
                settings.enabled && !NearAxis(NormalizeAngle(angleDeg), 0.0, settings.orthogonalSnapAngle) &&
                !NearAxis(NormalizeAngle(angleDeg), 90.0, settings.orthogonalSnapAngle) &&
                settings.enableDiagonalSnap && NearAxis(NormalizeAngle(angleDeg), 45.0, settings.diagonalSnapAngle)
      ensures r.snapType == Some(Diagonal135) <==>
                settings.enabled && !NearAxis(NormalizeAngle(angleDeg), 0.0, settings.orthogonalSnapAngle) &&
                !NearAxis(NormalizeAngle(angleDeg), 90.0, settings.orthogonalSnapAngle) &&
                settings.enableDiagonalSnap && !NearAxis(NormalizeAngle(angleDeg), 45.0, settings.diagonalSnapAngle) &&
                NearAxis(NormalizeAngle(angleDeg), 135.0, settings.diagonalSnapAngle)
      ensures r.snapType == Some(Diagonal45) ==>
                var avg := AverageDelta(endX - startX, endY - startY);
                Sign(r.x - startX) == Sign(endX - startX) && Sign(r.y - startY) == Sign(endY - startY) &&
                (endX - startX != 0.0 ==> Abs(r.x - startX) == avg) &&
                (endY - startY != 0.0 ==> Abs(r.y - startY) == avg)
      ensures r.snapType == Some(Diagonal135) ==>
                var avg := AverageDelta(endX - startX, endY - startY);
                r.y - startY == -(r.x - startX) && Sign(r.x - startX) == Sign(endX - startX) &&
                (endX - startX != 0.0 ==> Abs(r.x - startX) == avg)
    {
      if !settings.enabled then SnapResult(endX, endY, false, None)
      else
        var deltaX, deltaY := endX - startX, endY - startY;
        var normalizedAngle := NormalizeAngle(angleDeg);
        if NearAxis(normalizedAngle, 0.0, settings.orthogonalSnapAngle) then
          SnapResult(endX, startY, true, Some(Horizontal))
        else if NearAxis(normalizedAngle, 90.0, settings.orthogonalSnapAngle) then
          SnapResult(startX, endY, true, Some(Vertical))
        else if settings.enableDiagonalSnap && NearAxis(normalizedAngle, 45.0, settings.diagonalSnapAngle) then
          var avgDelta := AverageDelta(deltaX, deltaY);
          ScaledSign(avgDelta, deltaX);
          ScaledSign(avgDelta, deltaY);
          SnapResult(startX + avgDelta * Sign(deltaX), startY + avgDelta * Sign(deltaY), true, Some(Diagonal45))
        else if settings.enableDiagonalSnap && NearAxis(normalizedAngle, 135.0, settings.diagonalSnapAngle) then
          var avgDelta := AverageDelta(deltaX, deltaY);
          ScaledSign(avgDelta, deltaX);
          SnapResult(startX + avgDelta * Sign(deltaX), startY - avgDelta * Sign(deltaX), true, Some(Diagonal135))
        else SnapResult(endX, endY, false, None)
    }
  }

  /** A zero delta puts atan2 on an axis, and an axis is always caught by the
      horizontal or vertical test (for a non-negative tolerance) before the
      diagonals are tried. So with a consistent angle a 45-degree or 135-degree snap
      moves both coordinates by the same non-zero amount. */
  lemma DiagonalSnapIsSquare(g: GridSnapper, startX: real, startY: real, endX: real, endY: real, angleDeg: real)
    requires AngleOnAxes(endX - startX, endY - startY, angleDeg)
    requires g.settings.orthogonalSnapAngle >= 0.0
    ensures var r := g.SnapLine(startX, startY, endX, endY, angleDeg);
            (r.snapType == Some(Diagonal45) ==>
               endX - startX != 0.0 && endY - startY != 0.0 &&
               Abs(r.x - startX) == Abs(r.y - startY) == AverageDelta(endX - startX, endY - startY)) &&
            (r.snapType == Some(Diagonal135) ==>
               endX - startX != 0.0 && endY - startY != 0.0 &&
               Abs(r.x - startX) == Abs(r.y - startY) == AverageDelta(endX - startX, endY - startY))
  {
    var dx, dy := endX - startX, endY - startY;
    var tol := g.settings.orthogonalSnapAngle;
    if dy == 0.0 {
      assert NormalizeAngle(angleDeg) == 0.0 || NormalizeAngle(angleDeg) == 180.0;
      assert NearAxis(NormalizeAngle(angleDeg), 0.0, tol);
    } else if dx == 0.0 {
      assert NormalizeAngle(angleDeg) == 90.0 || NormalizeAngle(angleDeg) == 270.0;
      assert NearAxis(NormalizeAngle(angleDeg), 90.0, tol);
    }
  }
}
