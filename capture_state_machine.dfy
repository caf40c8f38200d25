/** The still-capture state machine of `Camera2BasicFragment`: `mState`,
    the preview request builder it mutates, and the requests it issues to the
    camera capture session. Requests are recorded, in order, in an append-only
    log of host operations. */
module CaptureStateMachine {

  import opened Wrappers
  import Orientation

  // Values of the Android camera2 metadata constants the fragment compares
  // against or sets (`CaptureResult`, `CaptureRequest`, `CameraMetadata`).
  const AF_STATE_FOCUSED_LOCKED: int := 4
  const AF_STATE_NOT_FOCUSED_LOCKED: int := 5
  const AE_STATE_CONVERGED: int := 2
  const AE_STATE_FLASH_REQUIRED: int := 4
  const AE_STATE_PRECAPTURE: int := 5
  const AF_TRIGGER_START: int := 1
  const AF_TRIGGER_CANCEL: int := 2
  const AE_PRECAPTURE_TRIGGER_START: int := 1
  const AF_MODE_CONTINUOUS_PICTURE: int := 4
  const AE_MODE_ON_AUTO_FLASH: int := 2

  /** `mState`: STATE_PREVIEW .. STATE_PICTURE_TAKEN. */
  datatype State = Preview | WaitingLock | WaitingPrecapture | WaitingNonPrecapture | PictureTaken

  /** Position of a state in the capture sequence. */
  function Rank(s: State): nat
  {
    match s
    case Preview => 0
    case WaitingLock => 1
    case WaitingPrecapture => 2
    case WaitingNonPrecapture => 3
    case PictureTaken => 4
  }

  /** The two fields `process` reads from a `CaptureResult`; either may be
      missing on a given device. */
  datatype CaptureResult = CaptureResult(afState: Option<int>, aeState: Option<int>)

  /** The request keys the fragment sets. */
  datatype Key = AfMode | AeMode | AfTrigger | AePrecaptureTrigger | JpegOrientation

  /** The settings of a request (builder), as far as this code sets them. */
  type Request = map<Key, int>

  /** A call the fragment makes on its `CameraCaptureSession`. */
  datatype HostOp =
    | Capture(request: Request)
    | StopRepeating
    | AbortCaptures
    | CaptureStill(request: Request)
    | SetRepeating(request: Request)

  /** `setAutoFlash`: with a flash, the builder's AE mode becomes auto-flash;
      no other key changes. */
  function WithAutoFlash(builder: Request, flashSupported: bool): (r: Request)
    ensures r.Keys == builder.Keys + (if flashSupported then {AeMode} else {})
    ensures flashSupported ==> r[AeMode] == AE_MODE_ON_AUTO_FLASH
    ensures forall k :: k in builder && (k != AeMode || !flashSupported) ==> r[k] == builder[k]
  {
    if flashSupported then builder[AeMode := AE_MODE_ON_AUTO_FLASH] else builder
  }

  /** Setting auto-flash twice is setting it once. */
  lemma WithAutoFlashIdempotent(builder: Request, flashSupported: bool)
    ensures WithAutoFlash(WithAutoFlash(builder, flashSupported), flashSupported) ==
            WithAutoFlash(builder, flashSupported)
  {
  }

  /** `mPreviewRequest` as built when the session is configured: continuous
      picture autofocus, plus auto-flash when the device has a flash. */
  function PreviewRequest(flashSupported: bool): (r: Request)
    ensures AfMode in r && r[AfMode] == AF_MODE_CONTINUOUS_PICTURE
    ensures AfTrigger !in r && AePrecaptureTrigger !in r && JpegOrientation !in r
    ensures (AeMode in r) == flashSupported
  {
    WithAutoFlash(map[AfMode := AF_MODE_CONTINUOUS_PICTURE], flashSupported)
  }

  /** The still-capture request of `captureStillPicture`: the preview's AF
      and AE modes plus the JPEG orientation for the display rotation. */
  function StillRequest(flashSupported: bool, displayRotation: int, sensorOrientation: int): (r: Request)
    ensures r.Keys == PreviewRequest(flashSupported).Keys + {JpegOrientation}
    ensures forall k :: k in PreviewRequest(flashSupported) ==> r[k] == PreviewRequest(flashSupported)[k]
    ensures r[JpegOrientation] == Orientation.GetOrientation(displayRotation, sensorOrientation)
  {
    WithAutoFlash(map[AfMode := AF_MODE_CONTINUOUS_PICTURE], flashSupported)
      [JpegOrientation := Orientation.GetOrientation(displayRotation, sensorOrientation)]
  }

  /** What one call of `process` asks of the session. */
  datatype Action = NoRequest | StillCapture | PrecaptureTrigger

  datatype Step = Step(next: State, action: Action)

  predicate AfLocked(af: int)
  {
    af == AF_STATE_FOCUSED_LOCKED || af == AF_STATE_NOT_FOCUSED_LOCKED
  }

  /** The transition table of `process`: the next `mState` and the request
      issued, for a state and a capture result. */
  function Transition(st: State, result: CaptureResult): (s: Step)
    ensures Rank(s.next) >= Rank(st)
    ensures Rank(s.next) <= Rank(st) + 1 || (st == WaitingLock && s.next == PictureTaken)
    ensures s.action == StillCapture ==>
              s.next == PictureTaken || (st == WaitingLock && result.afState.None?)
    ensures s.action == PrecaptureTrigger <==> st == WaitingLock && s.next == WaitingPrecapture
    ensures s.action == NoRequest && s.next != st ==> st == WaitingPrecapture && s.next == WaitingNonPrecapture
    ensures s.next == PictureTaken && st != PictureTaken ==> s.action == StillCapture
  {
    match st
    case Preview => Step(Preview, NoRequest)
    case WaitingLock =>
      if result.afState.None? then Step(WaitingLock, StillCapture)
      else if AfLocked(result.afState.value) then
        if result.aeState.None? || result.aeState.value == AE_STATE_CONVERGED
        then Step(PictureTaken, StillCapture)
        else Step(WaitingPrecapture, PrecaptureTrigger)
      else Step(WaitingLock, NoRequest)
    case WaitingPrecapture =>
      if result.aeState.None? || result.aeState.value == AE_STATE_PRECAPTURE ||
         result.aeState.value == AE_STATE_FLASH_REQUIRED
      then Step(WaitingNonPrecapture, NoRequest)
      else Step(WaitingPrecapture, NoRequest)
    case WaitingNonPrecapture =>
      if result.aeState.None? || result.aeState.value != AE_STATE_PRECAPTURE
      then Step(PictureTaken, StillCapture)
      else Step(WaitingNonPrecapture, NoRequest)
    case PictureTaken => Step(PictureTaken, NoRequest)
  }

  /** Previewing, or with the picture taken, a result changes nothing and
      issues nothing, whatever it holds. */
  lemma IdleStatesIgnoreResults(st: State, result: CaptureResult)
    requires st == Preview || st == PictureTaken
    ensures Transition(st, result) == Step(st, NoRequest)
  {
  }

  /** The four rows of STATE_WAITING_LOCK. */
  lemma WaitingLockRows(result: CaptureResult)
    ensures result.afState.None? ==>
              Transition(WaitingLock, result) == Step(WaitingLock, StillCapture)
    ensures result.afState.Some? && AfLocked(result.afState.value) &&
            (result.aeState.None? || result.aeState.value == AE_STATE_CONVERGED) ==>
              Transition(WaitingLock, result) == Step(PictureTaken, StillCapture)
    ensures result.afState.Some? && AfLocked(result.afState.value) &&
            result.aeState.Some? && result.aeState.value != AE_STATE_CONVERGED ==>
              Transition(WaitingLock, result) == Step(WaitingPrecapture, PrecaptureTrigger)
    ensures result.afState.Some? && !AfLocked(result.afState.value) ==>
              Transition(WaitingLock, result) == Step(WaitingLock, NoRequest)
  {
  }

  /** STATE_WAITING_PRECAPTURE advances, silently, exactly when AE is absent,
      PRECAPTURE or FLASH_REQUIRED; STATE_WAITING_NON_PRECAPTURE takes the
      picture exactly when AE is absent or not PRECAPTURE. */
  lemma PrecaptureRows(result: CaptureResult)
    ensures Transition(WaitingPrecapture, result).action == NoRequest
    ensures Transition(WaitingPrecapture, result).next == WaitingNonPrecapture <==>
              result.aeState.None? || result.aeState.value in {AE_STATE_PRECAPTURE, AE_STATE_FLASH_REQUIRED}
    ensures Transition(WaitingNonPrecapture, result) ==
              if result.aeState.None? || result.aeState.value != AE_STATE_PRECAPTURE
              then Step(PictureTaken, StillCapture) else Step(WaitingNonPrecapture, NoRequest)
  {
  }

  /** A device that never reports AF keeps the machine in STATE_WAITING_LOCK,
      so every further result requests another still capture. */
  lemma AfAbsentRepeatsStillCapture(first: CaptureResult, second: CaptureResult)
    requires first.afState.None? && second.afState.None?
    ensures var s1 := Transition(WaitingLock, first);
      && s1 == Step(WaitingLock, StillCapture)
      && Transition(s1.next, second) == Step(WaitingLock, StillCapture)
  {
  }

  /** The capture-related state of `Camera2BasicFragment`. */
  class Camera2BasicFragment {
    /** `mState`. */
    var state: State
    /** The settings of `mPreviewRequestBuilder`. */
    var previewRequestBuilder: Request
    /** `mPreviewRequest`, built once when the session is configured. */
    var previewRequest: Request
    /** Every call made on the capture session, oldest first. */
    var log: seq<HostOp>
    /** Both `getActivity()` and `mCameraDevice` are non-null. */
    const devicePresent: bool
    /** The display rotation the host reports when a still is captured. */
    const displayRotation: int
    /** `mFlashSupported`. */
    const flashSupported: bool
    /** `mSensorOrientation`. */
    const sensorOrientation: int

    /** The builder is the preview request plus whatever triggers have been
        set on it; the repeating preview request carries no trigger. */
    ghost predicate Valid()
      reads this
    {
      && previewRequest == PreviewRequest(flashSupported)
      && previewRequestBuilder - {AfTrigger, AePrecaptureTrigger} == previewRequest
    }

    /** The session's `onConfigured`: continuous-picture AF and auto-flash on
        the builder, `mPreviewRequest` built from it, and the preview started
        as a repeating request. */
    constructor Configured(flashSupported: bool, sensorOrientation: int,
                           displayRotation: int, devicePresent: bool)
      ensures Valid()
      ensures state == Preview
      ensures previewRequestBuilder == PreviewRequest(flashSupported)
      ensures log == [SetRepeating(PreviewRequest(flashSupported))]
      ensures this.flashSupported == flashSupported && this.sensorOrientation == sensorOrientation
      ensures this.displayRotation == displayRotation && this.devicePresent == devicePresent
    {
      this.flashSupported := flashSupported;
      this.sensorOrientation := sensorOrientation;
      this.displayRotation := displayRotation;
      this.devicePresent := devicePresent;
      state := Preview;
      var builder := map[AfMode := AF_MODE_CONTINUOUS_PICTURE];
      builder := WithAutoFlash(builder, flashSupported);
      previewRequestBuilder := builder;
      previewRequest := builder;
      log := [SetRepeating(builder)];
    }

    /** The calls `captureStillPicture` makes: none without an activity and
        camera device, otherwise stop repeating, abort, capture the still. */
    function StillCaptureOps(): (ops: seq<HostOp>)
      reads this
      ensures |ops| == if devicePresent then 3 else 0
    {
      if devicePresent
      then [StopRepeating, AbortCaptures, CaptureStill(StillRequest(flashSupported, displayRotation, sensorOrientation))]
      else []
    }

    /** `lockFocus`: set the AF trigger to START, wait for the lock, and
        capture once with the builder. */
    method LockFocus()
      requires Valid()
      modifies this`state, this`previewRequestBuilder, this`log
      ensures Valid()
      ensures previewRequestBuilder == old(previewRequestBuilder)[AfTrigger := AF_TRIGGER_START]
      ensures state == WaitingLock
      ensures log == old(log) + [Capture(previewRequestBuilder)]
    {
      previewRequestBuilder := previewRequestBuilder[AfTrigger := AF_TRIGGER_START];
      state := WaitingLock;
      log := log + [Capture(previewRequestBuilder)];
    }

    /** `runPrecaptureSequence`: set the AE precapture trigger to START, wait
        for precapture, and capture once with the builder. */
    method RunPrecaptureSequence()
      requires Valid()
      modifies this`state, this`previewRequestBuilder, this`log
      ensures Valid()
      ensures previewRequestBuilder == old(previewRequestBuilder)[AePrecaptureTrigger := AE_PRECAPTURE_TRIGGER_START]
      ensures state == WaitingPrecapture
      ensures log == old(log) + [Capture(previewRequestBuilder)]
    {
      previewRequestBuilder := previewRequestBuilder[AePrecaptureTrigger := AE_PRECAPTURE_TRIGGER_START];
      state := WaitingPrecapture;
      log := log + [Capture(previewRequestBuilder)];
    }

    /** `captureStillPicture`: the request-issuing part. It leaves `mState`
        and the preview builder alone. */
    method CaptureStillPicture()
      modifies this`log
      ensures log == old(log) + StillCaptureOps()
    {
      if !devicePresent {
        return;
      }
      var still := StillRequest(flashSupported, displayRotation, sensorOrientation);
      log := log + [StopRepeating];
      log := log + [AbortCaptures];
      log := log + [CaptureStill(still)];
    }

    /** `unlockFocus`: cancel the AF trigger with one capture, return to
        preview, and resume repeating with `mPreviewRequest` (not with the
        trigger-carrying builder). */
    method UnlockFocus()
      requires Valid()
      modifies this`state, this`previewRequestBuilder, this`log
      ensures Valid()
      ensures previewRequestBuilder == old(previewRequestBuilder)[AfTrigger := AF_TRIGGER_CANCEL]
      ensures state == Preview
      ensures log == old(log) + [Capture(previewRequestBuilder), SetRepeating(previewRequest)]
      ensures AfTrigger !in previewRequest && AePrecaptureTrigger !in previewRequest
    {
      previewRequestBuilder := previewRequestBuilder[AfTrigger := AF_TRIGGER_CANCEL];
      assert flashSupported ==> AeMode in previewRequest && previewRequestBuilder[AeMode] == AE_MODE_ON_AUTO_FLASH;
      previewRequestBuilder := WithAutoFlash(previewRequestBuilder, flashSupported);
      log := log + [Capture(previewRequestBuilder)];
      state := Preview;
      log := log + [SetRepeating(previewRequest)];
    }

    /** `mCaptureCallback.process`: runs the transition table on one capture
        result, issuing at most the requests of its action. */
    method Process(result: CaptureResult)
      requires Valid()
      modifies this`state, this`previewRequestBuilder, this`log
      ensures Valid()
      ensures var step := Transition(old(state), result);
        && state == step.next
        && (step.action == NoRequest ==>
              previewRequestBuilder == old(previewRequestBuilder) && log == old(log))
        && (step.action == StillCapture ==>
              previewRequestBuilder == old(previewRequestBuilder) && log == old(log) + StillCaptureOps())
        && (step.action == PrecaptureTrigger ==>
              && previewRequestBuilder == old(previewRequestBuilder)[AePrecaptureTrigger := AE_PRECAPTURE_TRIGGER_START]
              && log == old(log) + [Capture(previewRequestBuilder)])
    {
      match state {
        case Preview =>
        case WaitingLock =>
          var afState := result.afState;
          if afState.None? {
            CaptureStillPicture();
          } else if AF_STATE_FOCUSED_LOCKED == afState.value || AF_STATE_NOT_FOCUSED_LOCKED == afState.value {
            var aeState := result.aeState;
            if aeState.None? || aeState.value == AE_STATE_CONVERGED {
              state := PictureTaken;
              CaptureStillPicture();
            } else {
              RunPrecaptureSequence();
            }
          }
        case WaitingPrecapture =>
          var aeState := result.aeState;
          if aeState.None? || aeState.value == AE_STATE_PRECAPTURE || aeState.value == AE_STATE_FLASH_REQUIRED {
            state := WaitingNonPrecapture;
          }
        case WaitingNonPrecapture =>
          var aeState := result.aeState;
          if aeState.None? || aeState.value != AE_STATE_PRECAPTURE {
            state := PictureTaken;
            CaptureStillPicture();
          }
        case PictureTaken =>
      }
    }
  }

  /** A full round where focus locks with exposure already converged:
      `lockFocus`, one result, then the still's completion callback calling
      `unlockFocus`. Exactly one still capture is issued and the preview
      resumes exactly once, with the configured preview request. */
  method FocusLockedCycle(flashSupported: bool, sensorOrientation: int, displayRotation: int)
    returns (afterLock: State, afterResult: State, afterUnlock: State, ops: seq<HostOp>)
    ensures afterLock == WaitingLock && afterResult == PictureTaken && afterUnlock == Preview
    ensures var p := PreviewRequest(flashSupported);
      ops == [SetRepeating(p),
              Capture(p[AfTrigger := AF_TRIGGER_START]),
              StopRepeating, AbortCaptures,
              CaptureStill(StillRequest(flashSupported, displayRotation, sensorOrientation)),
              Capture(p[AfTrigger := AF_TRIGGER_CANCEL]),
              SetRepeating(p)]
  {
    var p := PreviewRequest(flashSupported);
    var locked := p[AfTrigger := AF_TRIGGER_START];
    var fragment := new Camera2BasicFragment.Configured(flashSupported, sensorOrientation, displayRotation, true);
    fragment.LockFocus();
    afterLock := fragment.state;
    assert fragment.log == [SetRepeating(p), Capture(locked)];
    var still := [StopRepeating, AbortCaptures, CaptureStill(StillRequest(flashSupported, displayRotation, sensorOrientation))];
    assert fragment.StillCaptureOps() == still;
    ConvergedResult(fragment);
    afterResult := fragment.state;
    assert fragment.previewRequestBuilder == locked;
    assert fragment.log == [SetRepeating(p), Capture(locked)] + still;
    fragment.UnlockFocus();
    afterUnlock := fragment.state;
    assert fragment.previewRequest == p;
    assert fragment.previewRequestBuilder == p[AfTrigger := AF_TRIGGER_CANCEL];
    ops := fragment.log;
  }

  /** A result with focus locked and exposure converged, on a fragment
      waiting for focus lock, takes the picture at once. */
  method ConvergedResult(fragment: Camera2BasicFragment)
    requires fragment.Valid() && fragment.state == WaitingLock
    modifies fragment`state, fragment`previewRequestBuilder, fragment`log
    ensures fragment.Valid() && fragment.state == PictureTaken
    ensures fragment.previewRequestBuilder == old(fragment.previewRequestBuilder)
    ensures fragment.log == old(fragment.log) + fragment.StillCaptureOps()
  {
    var result := CaptureResult(Some(AF_STATE_FOCUSED_LOCKED), Some(AE_STATE_CONVERGED));
    assert Transition(WaitingLock, result) == Step(PictureTaken, StillCapture);
    fragment.Process(result);
  }

  /** The precapture phase on a fragment waiting for focus lock: focus
      locks with exposure still searching, exposure then reports PRECAPTURE,
      then converges. */
  method PrecaptureResults(fragment: Camera2BasicFragment) returns (states: seq<State>)
    requires fragment.Valid() && fragment.state == WaitingLock && fragment.devicePresent
    modifies fragment`state, fragment`previewRequestBuilder, fragment`log
    ensures fragment.Valid()
    ensures states == [WaitingPrecapture, WaitingNonPrecapture, PictureTaken] && fragment.state == PictureTaken
    ensures var triggered := old(fragment.previewRequestBuilder)[AePrecaptureTrigger := AE_PRECAPTURE_TRIGGER_START];
      && fragment.previewRequestBuilder == triggered
      && fragment.log == old(fragment.log) + [Capture(triggered)] + fragment.StillCaptureOps()
  {
    var searching := CaptureResult(Some(AF_STATE_FOCUSED_LOCKED), Some(1));
    assert Transition(WaitingLock, searching) == Step(WaitingPrecapture, PrecaptureTrigger);
    fragment.Process(searching);
    states := [fragment.state];

    var precapture := CaptureResult(Some(AF_STATE_FOCUSED_LOCKED), Some(AE_STATE_PRECAPTURE));
    assert Transition(WaitingPrecapture, precapture) == Step(WaitingNonPrecapture, NoRequest);
    fragment.Process(precapture);
    states := states + [fragment.state];

    var converged := CaptureResult(Some(AF_STATE_FOCUSED_LOCKED), Some(AE_STATE_CONVERGED));
    assert Transition(WaitingNonPrecapture, converged) == Step(PictureTaken, StillCapture);
    fragment.Process(converged);
    states := states + [fragment.state];
  }

  /** A round that needs the precapture sequence (see `PrecaptureResults`),
      ending with `unlockFocus`. The AE precapture trigger stays on the
      builder, so the unlocking capture still carries it. */
  method PrecaptureCycle(flashSupported: bool, sensorOrientation: int, displayRotation: int)
    returns (states: seq<State>, ops: seq<HostOp>)
    ensures states == [WaitingLock, WaitingPrecapture, WaitingNonPrecapture, PictureTaken, Preview]
    ensures var p := PreviewRequest(flashSupported);
      var locked := p[AfTrigger := AF_TRIGGER_START];
      var triggered := locked[AePrecaptureTrigger := AE_PRECAPTURE_TRIGGER_START];
      ops == [SetRepeating(p),
              Capture(locked),
              Capture(triggered),
              StopRepeating, AbortCaptures,
              CaptureStill(StillRequest(flashSupported, displayRotation, sensorOrientation)),
              Capture(triggered[AfTrigger := AF_TRIGGER_CANCEL]),
              SetRepeating(p)]
  {
    var p := PreviewRequest(flashSupported);
    var triggered := p[AfTrigger := AF_TRIGGER_START][AePrecaptureTrigger := AE_PRECAPTURE_TRIGGER_START];
    var fragment := new Camera2BasicFragment.Configured(flashSupported, sensorOrientation, displayRotation, true);
    fragment.LockFocus();
    assert fragment.log == [SetRepeating(p), Capture(p[AfTrigger := AF_TRIGGER_START])];
    var middle := PrecaptureResults(fragment);
    assert fragment.previewRequestBuilder == triggered;
    assert fragment.log == [SetRepeating(p), Capture(p[AfTrigger := AF_TRIGGER_START]), Capture(triggered),
                            StopRepeating, AbortCaptures,
                            CaptureStill(StillRequest(flashSupported, displayRotation, sensorOrientation))];
    fragment.UnlockFocus();
    assert fragment.previewRequest == p;
    assert fragment.previewRequestBuilder == triggered[AfTrigger := AF_TRIGGER_CANCEL];
    states := [WaitingLock] + middle + [fragment.state];
    ops := fragment.log;
  }

  /** When the activity or camera device has gone away since the session was
      configured, a focus-locked result still moves to STATE_PICTURE_TAKEN
      but issues nothing. */
  method NoDeviceCycle(flashSupported: bool, sensorOrientation: int, displayRotation: int)
    returns (afterResult: State, ops: seq<HostOp>)
    ensures afterResult == PictureTaken
    ensures var p := PreviewRequest(flashSupported);
      ops == [SetRepeating(p), Capture(p[AfTrigger := AF_TRIGGER_START])]
  {
    var fragment := new Camera2BasicFragment.Configured(flashSupported, sensorOrientation, displayRotation, false);
    fragment.LockFocus();
    fragment.Process(CaptureResult(Some(AF_STATE_NOT_FOCUSED_LOCKED), None));
    afterResult := fragment.state;
    ops := fragment.log;
  }
}
