/** Rotation arithmetic of `Camera2BasicFragment`: the `ORIENTATIONS` table
    with `getOrientation`, and the swap-and-clamp step of
    `setUpCameraOutputs` that turns the view size and the display size into
    sensor-relative preview bounds. */
module Orientation {

  import Arith

  /** `Surface.ROTATION_0` .. `Surface.ROTATION_270`. */
  const ROTATION_0: int := 0
  const ROTATION_90: int := 1
  const ROTATION_180: int := 2
  const ROTATION_270: int := 3

  /** The largest preview size the Camera2 API guarantees. */
  const MAX_PREVIEW_WIDTH: int := 1920
  const MAX_PREVIEW_HEIGHT: int := 1080

  /** Java's `%`: the remainder takes the sign of the dividend. */
  function JavaRem(a: int, n: int): (r: int)
    requires n > 0
    ensures -n < r < n
    ensures a >= 0 ==> r == a % n
    ensures a < 0 ==> r <= 0
    ensures (a - r) % n == 0
  {
    if a >= 0 then
      Arith.MulModZero(a / n, n);
      a % n
    else
      var q := (-a) / n;
      assert -a == q * n + (-a) % n;
      Arith.MulModZero(-q, n);
      assert a - -((-a) % n) == (-q) * n;
      -((-a) % n)
  }

  /** `ORIENTATIONS.get(rotation)`: a `SparseIntArray` yields 0 for a key it
      does not hold. */
  function OrientationTable(rotation: int): (degrees: int)
    ensures degrees in {0, 90, 180, 270}
    ensures (rotation < ROTATION_0 || rotation > ROTATION_270) ==> degrees == 0
  {
    if rotation == ROTATION_0 then 90
    else if rotation == ROTATION_90 then 0
    else if rotation == ROTATION_180 then 270
    else if rotation == ROTATION_270 then 180
    else 0
  }

  /** `getOrientation`: the JPEG orientation for a display rotation, given the
      sensor's mounting angle. */
  function GetOrientation(rotation: int, sensorOrientation: int): (degrees: int)
    ensures -360 < degrees < 360
    ensures sensorOrientation >= -270 ==> 0 <= degrees < 360
    ensures sensorOrientation >= -270 ==>
              (degrees - OrientationTable(rotation) - sensorOrientation) % 360 == 270
  {
    var sum := OrientationTable(rotation) + sensorOrientation + 270;
    var d := JavaRem(sum, 360);
    assert sensorOrientation >= -270 ==> d - OrientationTable(rotation) - sensorOrientation == 270 - 360 * (sum / 360);
    d
  }

  /** The four display rotations map to the table {0->90, 1->0, 2->270, 3->180}
      shifted by the sensor angle minus 90 degrees, modulo 360. */
  lemma GetOrientationTable(rotation: int, sensorOrientation: int)
    requires ROTATION_0 <= rotation <= ROTATION_270 && sensorOrientation >= 0
    ensures GetOrientation(rotation, sensorOrientation) ==
            ([90, 0, 270, 180][rotation] + sensorOrientation + 270) % 360
  {
  }

  /** Every result of `getOrientation` for a right-angle sensor is itself a
      right angle. */
  lemma GetOrientationRightAngle(rotation: int, sensorOrientation: int)
    requires sensorOrientation in {0, 90, 180, 270}
    ensures GetOrientation(rotation, sensorOrientation) in {0, 90, 180, 270}
  {
  }

  /** A sensor mounted at 90 degrees, the common case, leaves the table value
      as it is. */
  lemma SensorAt90IsTable(rotation: int)
    ensures GetOrientation(rotation, 90) == OrientationTable(rotation)
  {
  }

  /** A sensor mounted at 270 degrees turns the picture half way round
      compared with one at 90 degrees. */
  lemma SensorAt270IsHalfTurn(rotation: int)
    ensures GetOrientation(rotation, 270) == (GetOrientation(rotation, 90) + 180) % 360
  {
  }

  /** The `swappedDimensions` decision: the sensor is rotated a quarter turn
      against the display. An unknown display rotation (logged as invalid)
      swaps nothing. */
  function SwappedDimensions(displayRotation: int, sensorOrientation: int): (swapped: bool)
  {
    match displayRotation
    case 0 | 2 => sensorOrientation == 90 || sensorOrientation == 270
    case 1 | 3 => sensorOrientation == 0 || sensorOrientation == 180
    case _ => false
  }

  /** The size handed to `chooseOptimalSize`: the target (rotated preview)
      size and the maximum preview size, with the "Display rotation is
      invalid" diagnostic as a flag. */
  datatype PreviewBounds = PreviewBounds(
    rotatedPreviewWidth: int, rotatedPreviewHeight: int,
    maxPreviewWidth: int, maxPreviewHeight: int,
    invalidRotation: bool)

  /** The swap-and-clamp block of `setUpCameraOutputs`: a quarter-turn
      between sensor and display exchanges width and height of both the view
      size and the display size; the maximum is then clamped to 1920x1080. */
  function SwapAndClamp(displayRotation: int, sensorOrientation: int,
                        width: int, height: int, displayX: int, displayY: int): (b: PreviewBounds)
    ensures b.maxPreviewWidth <= MAX_PREVIEW_WIDTH && b.maxPreviewHeight <= MAX_PREVIEW_HEIGHT
    ensures b.invalidRotation <==> !(ROTATION_0 <= displayRotation <= ROTATION_270)
    ensures b.invalidRotation ==> (b.rotatedPreviewWidth, b.rotatedPreviewHeight) == (width, height)
    ensures var swapped := SwappedDimensions(displayRotation, sensorOrientation);
      && (b.rotatedPreviewWidth, b.rotatedPreviewHeight) == (if swapped then (height, width) else (width, height))
      && var (mx, my) := if swapped then (displayY, displayX) else (displayX, displayY);
         && b.maxPreviewWidth == (if mx > MAX_PREVIEW_WIDTH then MAX_PREVIEW_WIDTH else mx)
         && b.maxPreviewHeight == (if my > MAX_PREVIEW_HEIGHT then MAX_PREVIEW_HEIGHT else my)
  {
    var swapped := SwappedDimensions(displayRotation, sensorOrientation);
    var rotatedWidth := if swapped then height else width;
    var rotatedHeight := if swapped then width else height;
    var maxWidth := if swapped then displayY else displayX;
    var maxHeight := if swapped then displayX else displayY;
    PreviewBounds(rotatedWidth, rotatedHeight,
                  if maxWidth > MAX_PREVIEW_WIDTH then MAX_PREVIEW_WIDTH else maxWidth,
                  if maxHeight > MAX_PREVIEW_HEIGHT then MAX_PREVIEW_HEIGHT else maxHeight,
                  !(displayRotation in {ROTATION_0, ROTATION_90, ROTATION_180, ROTATION_270}))
  }

  /** Dimensions are swapped exactly when the display is upright (0 or 180
      degrees) with a sensor at 90 or 270, or sideways (90 or 270 degrees)
      with a sensor at 0 or 180. */
  lemma SwappedDimensionsIff(displayRotation: int, sensorOrientation: int)
    ensures SwappedDimensions(displayRotation, sensorOrientation) <==>
      || (displayRotation in {ROTATION_0, ROTATION_180} && sensorOrientation in {90, 270})
      || (displayRotation in {ROTATION_90, ROTATION_270} && sensorOrientation in {0, 180})
  {
  }

  /** Display size within the clamp passes through, swapped or not. */
  lemma SwapAndClampSmallDisplay(displayRotation: int, sensorOrientation: int,
                                 width: int, height: int, displayX: int, displayY: int)
    requires displayX <= MAX_PREVIEW_HEIGHT && displayY <= MAX_PREVIEW_HEIGHT
    ensures var b := SwapAndClamp(displayRotation, sensorOrientation, width, height, displayX, displayY);
      {b.maxPreviewWidth, b.maxPreviewHeight} == {displayX, displayY}
  {
  }
}
