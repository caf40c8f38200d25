# Camera2Demo capture core in Dafny

This project models the sequential integer logic inside the Camera2Demo
Android application, apart from the Android glue. It has three parts:

- **The still-capture state machine of `Camera2BasicFragment`.**
  - `mState` takes one of five states, from `STATE_PREVIEW` to
    `STATE_PICTURE_TAKEN`.
  - `mCaptureCallback.process` drives it from the optional AF and AE
    states of each capture result.
  - `lockFocus`, `runPrecaptureSequence`, `captureStillPicture` and
    `unlockFocus` set triggers on `mPreviewRequestBuilder` and issue requests
    to the capture session.
  - The fragment is a class (`CaptureStateMachine.Camera2BasicFragment`). Its
    fields are the state, the builder's settings (a `map` from request key to
    value), `mPreviewRequest`, and an append-only log of session calls:
    `Capture`, `StopRepeating`, `AbortCaptures`, `CaptureStill` and
    `SetRepeating`.
  - The pure function `Transition` is the transition table, and `Process` is
    proved against it.
  - The class invariant says the builder is `mPreviewRequest` plus the
    triggers set on it. So the repeating preview request never carries an AF
    or AE-precapture trigger.
- **Preview-size and orientation arithmetic of `Camera2BasicFragment`.**
  - `chooseOptimalSize` is a loop method proved against the specification
    functions `BigEnough`, `NotBigEnough`, `MinByArea`, `MaxByArea` and
    `OptimalSize`.
  - `CompareSizesByArea`, the `ORIENTATIONS` table with `getOrientation`, and
    the swap-and-clamp block of `setUpCameraOutputs` are pure functions.
- **`AutoFitTextureView`.** A class holds the two ratio fields.
  `SetAspectRatio` validates and stores them. `OnMeasure` returns the measured
  size and is proved against the pure rule `Measure`.

Specifics:

- The AF, AE, trigger and mode constants have the Android camera2 framework's
  values, e.g. `CONTROL_AF_STATE_FOCUSED_LOCKED` = 4 and
  `CONTROL_AE_STATE_PRECAPTURE` = 5. The repository's files only name these
  constants.
- `Collections.min` and `Collections.max` with `CompareSizesByArea` are
  modelled as the library computes them. Scanning from the first element, a
  candidate is replaced only by a strictly smaller (or larger) element. So the
  result is the first element of minimal (or maximal) area.
- `ORIENTATIONS.get` of a rotation the table lacks yields 0, as
  `SparseIntArray` does.
- Java's `%` in `getOrientation` is the truncating remainder `JavaRem`.
- Java's `/` is used only where dividends are non-negative and divisors
  positive. There it agrees with Dafny's `/`. This is why
  `ChooseOptimalSize` requires non-negative sizes and a positive ratio width
  (the divisor at line 444). `Measure` requires non-negative arguments:
  `MeasureSpec.getSize` and `setAspectRatio` never produce negative ones.
- The log message of `chooseOptimalSize` ("Couldn't find any suitable preview
  size") becomes the out-parameter `noSuitableSize`. The "Display rotation is
  invalid" log message of `setUpCameraOutputs` becomes the flag
  `invalidRotation` of `PreviewBounds`.

Three behaviours of the code are easy to miss. The model keeps all three:

- **AF state absent in `STATE_WAITING_LOCK`.** The code calls
  `captureStillPicture` and leaves `mState` at WAITING_LOCK
  (Camera2BasicFragment.java:349-350). Every later result without AF then
  issues another still capture (`AfAbsentRepeatsStillCapture`).
- **State before request.** `lockFocus` and `runPrecaptureSequence` assign
  `mState` before calling `capture` (Camera2BasicFragment.java:915-916 and
  933-934). A failing `capture` therefore still leaves the new state, and its
  exception is only printed.
- **The AE precapture trigger is never reset.** `runPrecaptureSequence` sets
  it (Camera2BasicFragment.java:930), and `unlockFocus` resets only the AF
  trigger (line 1022). So every later capture built from
  `mPreviewRequestBuilder` still carries the AE trigger, including the one in
  `unlockFocus`. `PrecaptureCycle` shows this.

## Model

| member | source | states |
|---|---|---|
| `SizeSelection.CompareByArea` | app/src/main/java/com/shillu/camera2demo/Camera2BasicFragment.java:1110-1118 | The comparator is negative, zero or positive exactly when the first area is smaller than, equal to or larger than the second. Areas are exact (no overflow), and the result is always -1, 0 or 1. |
| `SizeSelection.CompareByAreaIsPreorder` | app/src/main/java/com/shillu/camera2demo/Camera2BasicFragment.java:1113-1116 | The comparator is antisymmetric in sign and transitive, so it is a valid `Comparator`. |
| `SizeSelection.MinByArea` | app/src/main/java/com/shillu/camera2demo/Camera2BasicFragment.java:456-457 | `Collections.min` returns an element of the list whose area is no larger than any other. It is the first such element: every earlier element is strictly larger. |
| `SizeSelection.MaxByArea` | app/src/main/java/com/shillu/camera2demo/Camera2BasicFragment.java:458-459 | `Collections.max` returns an element of the list of maximal area. It is the first such element: every earlier element is strictly smaller. |
| `SizeSelection.PartitionMembers` | app/src/main/java/com/shillu/camera2demo/Camera2BasicFragment.java:442-452 | A size is in `bigEnough` iff it is a choice that passes the filter (within max, exact ratio) and covers the target. It is in `notBigEnough` iff it passes the filter and does not cover the target. |
| `SizeSelection.ChooseOptimalSize` | app/src/main/java/com/shillu/camera2demo/Camera2BasicFragment.java:434-464 | The loop-built partitions give exactly `OptimalSize`. The result is one of the choices. The diagnostic is raised iff no choice passes the filter, and then the result is `choices[0]`; otherwise the result passes the filter. |
| `SizeSelection.OptimalSizeCases` | app/src/main/java/com/shillu/camera2demo/Camera2BasicFragment.java:454-463 | If some filtered choice covers the target, the result is a covering filtered choice of minimal area among those. Else, if some choice passes the filter, the result is a filtered choice of maximal area. Else it is `choices[0]`. |
| `SizeSelection.OptimalSizeWithinBounds` | app/src/main/java/com/shillu/camera2demo/Camera2BasicFragment.java:443-444 | Unless it comes from the empty-filter fallback, the chosen size fits within maxWidth x maxHeight. |
| `SizeSelection.EligibleScaleInvariant` | app/src/main/java/com/shillu/camera2demo/Camera2BasicFragment.java:443-444 | A ratio (k*w, k*h) with k > 0 admits exactly the sizes that (w, h) admits. |
| `SizeSelection.PartitionScaleInvariant` | app/src/main/java/com/shillu/camera2demo/Camera2BasicFragment.java:442-452 | Scaling the ratio pair by k > 0 leaves both `bigEnough` and `notBigEnough` unchanged. |
| `SizeSelection.OptimalSizeScaleInvariant` | app/src/main/java/com/shillu/camera2demo/Camera2BasicFragment.java:440-463 | The chosen size depends only on the ratio, not on its magnitude. |
| `SizeSelection.SmallestCoveringExample` | app/src/main/java/com/shillu/camera2demo/Camera2BasicFragment.java:445-457 | With choices (100,150), (200,300), (50,75), target 120x180 and ratio 2:3, the result is (200,300), the smallest covering size. |
| `SizeSelection.LargestBelowTargetExample` | app/src/main/java/com/shillu/camera2demo/Camera2BasicFragment.java:456-459 | With no covering choice, the result is the largest-area eligible size (200,300), not the first in list order. |
| `Orientation.JavaRem` | app/src/main/java/com/shillu/camera2demo/Camera2BasicFragment.java:1010 | Java's remainder lies strictly between -n and n. It agrees with the mathematical modulus for non-negative dividends and is never positive for negative ones. The dividend minus the result is a multiple of n. With the range and the sign, this fixes the result uniquely, e.g. -5 for -5 % 360. |
| `Orientation.OrientationTable` | app/src/main/java/com/shillu/camera2demo/Camera2BasicFragment.java:90-99 | Every table value is a right angle. A rotation the table lacks yields 0. |
| `Orientation.GetOrientation` | app/src/main/java/com/shillu/camera2demo/Camera2BasicFragment.java:1005-1011 | For any sensor angle of at least -270, the JPEG orientation lies in [0, 360) and is congruent to table + sensor + 270 modulo 360. |
| `Orientation.GetOrientationTable` | app/src/main/java/com/shillu/camera2demo/Camera2BasicFragment.java:94-99 | For rotations 0..3 and non-negative sensor angles, the result is (table[r] + sensor + 270) mod 360, with table {0->90, 1->0, 2->270, 3->180}. |
| `Orientation.GetOrientationRightAngle` | app/src/main/java/com/shillu/camera2demo/Camera2BasicFragment.java:1010 | A sensor at 0, 90, 180 or 270 degrees always yields one of 0, 90, 180, 270. |
| `Orientation.SensorAt90IsTable` | app/src/main/java/com/shillu/camera2demo/Camera2BasicFragment.java:1005-1010 | With the sensor at 90 degrees, the result is the table value. |
| `Orientation.SensorAt270IsHalfTurn` | app/src/main/java/com/shillu/camera2demo/Camera2BasicFragment.java:1005-1010 | With the sensor at 270 degrees, the result is the 90-degree result plus 180, modulo 360. |
| `Orientation.SwapAndClamp` | app/src/main/java/com/shillu/camera2demo/Camera2BasicFragment.java:628-666 | The max preview size never exceeds 1920x1080. When the dimensions are swapped, both the preview (w,h) and the display (x,y) are exchanged, and each maximum is the display side clamped to its limit. The "Display rotation is invalid" diagnostic of line 643 is raised exactly for a rotation outside 0..3, and then nothing is swapped. |
| `Orientation.SwappedDimensionsIff` | app/src/main/java/com/shillu/camera2demo/Camera2BasicFragment.java:628-644 | Dimensions are swapped iff (rotation is 0 or 180 and the sensor is at 90 or 270) or (rotation is 90 or 270 and the sensor is at 0 or 180). |
| `Orientation.SwapAndClampSmallDisplay` | app/src/main/java/com/shillu/camera2demo/Camera2BasicFragment.java:646-666 | A display with both sides at most 1080 keeps both its sides as the maximum preview size, in one order or the other. |
| `CaptureStateMachine.WithAutoFlash` | app/src/main/java/com/shillu/camera2demo/Camera2BasicFragment.java:1056-1061 | With a flash, the builder gains AE mode ON_AUTO_FLASH and no other key changes. Without a flash, nothing changes. |
| `CaptureStateMachine.WithAutoFlashIdempotent` | app/src/main/java/com/shillu/camera2demo/Camera2BasicFragment.java:1024 | Re-applying auto-flash to a builder that already has it changes nothing. |
| `CaptureStateMachine.PreviewRequest` | app/src/main/java/com/shillu/camera2demo/Camera2BasicFragment.java:834-840 | `mPreviewRequest` has continuous-picture AF, AE mode iff there is a flash, and no trigger or JPEG orientation. |
| `CaptureStateMachine.StillRequest` | app/src/main/java/com/shillu/camera2demo/Camera2BasicFragment.java:959-970 | The still request carries the preview's AF and AE modes and, in addition, the JPEG orientation from `getOrientation`. |
| `CaptureStateMachine.Transition` | app/src/main/java/com/shillu/camera2demo/Camera2BasicFragment.java:341-387 | Process never moves backward in the capture sequence. A still capture is requested only on reaching PICTURE_TAKEN or with AF absent in WAITING_LOCK. The precapture trigger is set iff WAITING_LOCK moves to WAITING_PRECAPTURE. The only silent state change is WAITING_PRECAPTURE to WAITING_NON_PRECAPTURE. |
| `CaptureStateMachine.IdleStatesIgnoreResults` | app/src/main/java/com/shillu/camera2demo/Camera2BasicFragment.java:342-385 | In PREVIEW or PICTURE_TAKEN, any result leaves the state unchanged and issues no request. |
| `CaptureStateMachine.WaitingLockRows` | app/src/main/java/com/shillu/camera2demo/Camera2BasicFragment.java:347-363 | In WAITING_LOCK: AF absent gives a still capture and the state stays. AF locked with AE absent or converged gives PICTURE_TAKEN and a still capture. AF locked with another AE gives WAITING_PRECAPTURE and a precapture trigger. Any other AF gives no change. |
| `CaptureStateMachine.PrecaptureRows` | app/src/main/java/com/shillu/camera2demo/Camera2BasicFragment.java:365-382 | WAITING_PRECAPTURE issues nothing and advances iff AE is absent, PRECAPTURE or FLASH_REQUIRED. WAITING_NON_PRECAPTURE takes the picture iff AE is absent or not PRECAPTURE, and otherwise changes nothing. |
| `CaptureStateMachine.AfAbsentRepeatsStillCapture` | app/src/main/java/com/shillu/camera2demo/Camera2BasicFragment.java:347-350 | Two results without AF in WAITING_LOCK each request a still capture, and the state stays WAITING_LOCK. |
| `CaptureStateMachine.Camera2BasicFragment.Configured` | app/src/main/java/com/shillu/camera2demo/Camera2BasicFragment.java:310 | A fresh fragment's first configured session. The state is PREVIEW from the field initializer at line 310 (`onConfigured`, lines 824-842, does not write `mState`). The builder equals `mPreviewRequest`, and exactly one repeating request has been issued. |
| `CaptureStateMachine.Camera2BasicFragment.StillCaptureOps` | app/src/main/java/com/shillu/camera2demo/Camera2BasicFragment.java:955-984 | `captureStillPicture` makes three calls when the activity and camera device are present and none otherwise. |
| `CaptureStateMachine.Camera2BasicFragment.LockFocus` | app/src/main/java/com/shillu/camera2demo/Camera2BasicFragment.java:909-921 | The AF trigger becomes START and the state WAITING_LOCK. Exactly one capture of the updated builder is appended to the log. The builder invariant is kept. |
| `CaptureStateMachine.Camera2BasicFragment.RunPrecaptureSequence` | app/src/main/java/com/shillu/camera2demo/Camera2BasicFragment.java:927-939 | The AE precapture trigger becomes START and the state WAITING_PRECAPTURE. Exactly one capture of the updated builder is appended. |
| `CaptureStateMachine.Camera2BasicFragment.CaptureStillPicture` | app/src/main/java/com/shillu/camera2demo/Camera2BasicFragment.java:952-988 | Without an activity or device, nothing is issued. Otherwise StopRepeating, AbortCaptures and one still capture are issued, in that order. The state and the builder are untouched. |
| `CaptureStateMachine.Camera2BasicFragment.UnlockFocus` | app/src/main/java/com/shillu/camera2demo/Camera2BasicFragment.java:1019-1032 | The AF trigger becomes CANCEL and one capture is issued. The state becomes PREVIEW. Repeating resumes with `mPreviewRequest`, which carries no trigger, not with the builder. |
| `CaptureStateMachine.Camera2BasicFragment.Process` | app/src/main/java/com/shillu/camera2demo/Camera2BasicFragment.java:341-387 | The new state is `Transition`'s. No request leaves the builder and log alone. A still capture appends exactly `captureStillPicture`'s calls. The precapture action sets the trigger and appends exactly one capture. |
| `CaptureStateMachine.ConvergedResult` | app/src/main/java/com/shillu/camera2demo/Camera2BasicFragment.java:350-359 | In WAITING_LOCK, a result with focus locked and AE converged moves to PICTURE_TAKEN, leaves the builder alone and appends exactly `captureStillPicture`'s calls. |
| `CaptureStateMachine.PrecaptureResults` | app/src/main/java/com/shillu/camera2demo/Camera2BasicFragment.java:347-382 | From WAITING_LOCK, the results with AE searching, then PRECAPTURE, then converged walk through WAITING_PRECAPTURE and WAITING_NON_PRECAPTURE to PICTURE_TAKEN. They set the AE trigger once and append one trigger capture, then `captureStillPicture`'s calls. |
| `CaptureStateMachine.FocusLockedCycle` | app/src/main/java/com/shillu/camera2demo/Camera2BasicFragment.java:972-984 | lockFocus, then a focused-locked and converged result, then unlockFocus from the still's completion callback. This goes WAITING_LOCK, then PICTURE_TAKEN, then PREVIEW, and issues exactly the listed calls: one still capture and one resumed repeating preview. |
| `CaptureStateMachine.PrecaptureCycle` | app/src/main/java/com/shillu/camera2demo/Camera2BasicFragment.java:927-935 | With AE searching, then PRECAPTURE, then converged, the states run WAITING_LOCK, WAITING_PRECAPTURE, WAITING_NON_PRECAPTURE, PICTURE_TAKEN, PREVIEW, and exactly the listed calls are issued. |
| `CaptureStateMachine.NoDeviceCycle` | app/src/main/java/com/shillu/camera2demo/Camera2BasicFragment.java:955-957 | When the activity or camera device has gone away since the session was configured, the state still reaches PICTURE_TAKEN but no still-capture call is issued. |
| `AutoFitTextureView.Measure` | app/src/main/java/com/shillu/camera2demo/AutoFitTextureView.java:55-68 | A zero ratio component gives exactly the available size. One measured side always equals the available one, and neither exceeds it. |
| `AutoFitTextureView.MeasureKeepsRatio` | app/src/main/java/com/shillu/camera2demo/AutoFitTextureView.java:62-66 | With both ratio components positive, the width is kept exactly when `width < height * rw / rh` (stated without division as `(width + 1) * rh <= height * rw`). Then the height is the floor of the ratio-derived height. Otherwise the height is kept, and the width is the floor of the ratio-derived width. |
| `AutoFitTextureView.WidthBoundFitsHeight` | app/src/main/java/com/shillu/camera2demo/AutoFitTextureView.java:62-63 | When the width is the binding side, the height derived from it does not exceed the available height. |
| `AutoFitTextureView.MeasureScaleInvariant` | app/src/main/java/com/shillu/camera2demo/AutoFitTextureView.java:62-66 | Ratios (k*rw, k*rh) with k > 0 measure exactly like (rw, rh). |
| `AutoFitTextureView.TwoThreeIsFourSix` | app/src/main/java/com/shillu/camera2demo/AutoFitTextureView.java:39-40 | `setAspectRatio(2, 3)` and `setAspectRatio(4, 6)` give the same measured size. |
| `AutoFitTextureView.AutoFitTextureView.constructor` | app/src/main/java/com/shillu/camera2demo/AutoFitTextureView.java:23-24 | A new view has ratio (0, 0). |
| `AutoFitTextureView.AutoFitTextureView.SetAspectRatio` | app/src/main/java/com/shillu/camera2demo/AutoFitTextureView.java:45-52 | A negative component raises IllegalArgument and leaves both fields unchanged. Otherwise exactly the given values are stored, (0, 0) included. |
| `AutoFitTextureView.AutoFitTextureView.OnMeasure` | app/src/main/java/com/shillu/camera2demo/AutoFitTextureView.java:55-68 | The measured size is `Measure` of the stored ratio: it fits within the available size and one side is equal to it. |
| `AutoFitTextureView.FreshViewMeasuresAvailable` | app/src/main/java/com/shillu/camera2demo/AutoFitTextureView.java:59-60 | Before any accepted `setAspectRatio`, the view measures to exactly the size it is given, and a negative ratio is rejected. |

## Left out

- `configureTransform`: floating-point `RectF`/`Matrix` composition over framework classes.
- Camera open and close: the `mCameraOpenCloseLock` semaphore and its 2500 ms timeout, the background thread, and `mStateCallback`. These are concurrency and lifecycle plumbing. `devicePresent` stands for the resulting non-null `mCameraDevice` and activity.
- In `setUpCameraOutputs`: the `CameraManager` iteration, the `CameraCharacteristics` lookups, the choice of the largest JPEG size and the `ImageReader` creation. These are foreign calls; only the integer swap-and-clamp block is modelled.
- `ImageSaver` (file I/O), permissions, dialogs, `showToast`, `onClick`/`takePicture`, and the fragment and activity lifecycle. `CameraActivity.java` and `Camera2VideoFragment.java` are not part of this model.
- The defaults of the `TEMPLATE_PREVIEW` and `TEMPLATE_STILL_CAPTURE` request templates: the builder holds only the keys this code sets (AF mode, AE mode, AF trigger, AE precapture trigger, JPEG orientation). Surface targets and callbacks/handlers passed with each request are not recorded.
- `CameraAccessException` paths: every request is assumed to be issued successfully. `Process`, `LockFocus`, `RunPrecaptureSequence`, `CaptureStillPicture` and `UnlockFocus` do not model a failing session call.
- The display rotation, the presence of an activity and camera device, flash support and the sensor orientation are host inputs. They are fields set by the constructor, not read from Android services.
- Java 32-bit `int` overflow in `width * h / w` and in the measure products: sizes are unbounded integers.
- `requestLayout()` in `setAspectRatio` and the `super.onMeasure` call are framework duties. `OnMeasure` takes the sizes already extracted from the measure specs.
- The `Size[] choices` array of `chooseOptimalSize` is modelled as a `seq`, since the source only reads it.
- `CaptureStateMachine.Camera2BasicFragment.Configured`: models only a fresh fragment's first configured session, with `mState` at its initial STATE_PREVIEW. The fragment can close its camera (Camera2BasicFragment.java:735-744) and reopen it into `createCameraPreviewSession` (line 804). The new session's `onConfigured` does not write `mState`, so that session keeps whatever state the fragment last held, such as PICTURE_TAKEN. This re-configuration of an existing fragment is not modelled.
- `SizeSelection.ChooseOptimalSize`: requires a non-empty `choices`. In the source, an empty array leaves both lists empty, and `choices[0]` at Camera2BasicFragment.java:462 then throws `ArrayIndexOutOfBoundsException`. The model does not represent that exception.
- `CaptureStateMachine.Camera2BasicFragment.Configured`: assumes that the camera device is present when `onConfigured` runs. The source returns before `setRepeatingRequest` when `mCameraDevice` is null (Camera2BasicFragment.java:826-828). The model logs the repeating request in every case. `devicePresent = false` stands for an activity or camera device that goes away after configuration, for example through `onDisconnected` (lines 230-234). The case where the device is already absent at configuration is not modelled; there, the later `lockFocus` would dereference a null `mCaptureSession` (line 916).
