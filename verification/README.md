# Camera2 capture session — a Dafny model

This project models the session state machine of WebRTC's `Camera2Session`
(Android camera2 capture for a React Native bridge): how one camera capture
session starts, opens its device, configures a capture session, forwards frames,
switches the torch, and tears everything down on stop, error or disconnect.

The session is an immutable record (`CameraSession.Session`): the state
`Running`/`Stopped` (initially `Running`), presence flags for the camera device,
the preview surface and the capture session, whether the frame listener is
installed, the first-frame flag, the flash flag, the characteristics and values
read at start, the capture format, and the still-capture size. Every callback
the camera thread delivers is an `Event`, and `CameraSession.Step` applies one of
them. A step returns an `Effect`: the new record, the notifications sent to the
creator (`OnDone`, `OnFailure`) and to the event sink (`OnCameraError`,
`OnCameraDisconnected`, `OnCameraClosed`, `OnCameraOpening`, `OnFrameCaptured`),
the release actions performed, the repeating requests issued, and a fault when
the Java code would end in an uncaught exception (a null dereference or a
division by zero). `SessionRuns.Run` applies a sequence of callbacks and appends
the traces; a fault ends the run.

Modules:

- `JavaInt` (`java_int.dfy`): Java's truncating `/` and `%`.
- `Optional` (`optional.dfy`): nullable references as `Option`.
- `CameraTypes` (`camera_types.dfy`): sizes, frame-rate ranges, capture format,
  characteristics, the camera2 platform constants, device error codes.
- `Selection` (`selection.dfy`): frame orientation, stabilization and focus
  choice, the repeating request, the largest JPEG size.
- `CameraSession` (`session.dfy`): the record, the events and every handler.
- `SessionRuns` (`session_runs.dfy`): runs of callbacks and the properties that
  span several steps.

Behaviour reproduced from the code, as written:

- `reportError` has no "already stopped" guard: from `Stopped` it tears down again
  and reports `OnCameraError`. The start-failure test is "no capture session and
  not stopped", evaluated before the state is set.
- `start` opens the camera even after "no supported capture formats" was
  reported; a refused open is then reported a second time, and an open that
  succeeds dereferences the missing format (`NullCaptureFormat` fault).
- `onOpened` and `onConfigured` do not look at the state: a late open takes the
  device and a new surface even on a stopped session.
- The capture session handle is stored before the repeating request starts, so a
  failing request is always `OnCameraError`, never a start failure; the frame
  listener is installed even after that failure tore the session down.
- Switching the flash re-runs the request start, which reports `OnDone` again.
- The frame orientation uses `360 - r` for the display rotation `r` of a camera
  that is NOT front-facing, and `r` itself for a front-facing one.
- With the flash off the flash key of the request is left unset, not set to off.
- A configuration failure followed by a disconnect reports two terminal
  callbacks (`OnFailure`, then `OnCameraDisconnected`), not one.

The constants compared against and written into requests are the published
camera2 values: `TEMPLATE_RECORD` 3, `CONTROL_AE_MODE_ON` 1, `FLASH_MODE_TORCH` 2,
optical and video stabilization ON 1 / OFF 0, `CONTROL_AF_MODE_CONTINUOUS_VIDEO` 3,
and device error codes 1 (in use) to 5 (service).

## Model

| member | source | states |
|---|---|---|
| CameraSession.HeldReleases | android/src/main/java/org/webrtc/Camera2Session.java:430-450 | keeps exactly those releases of the given order whose handle is held, in the same order, so an ordered list stays ordered; with every handle held nothing is dropped |
| CameraSession.TeardownReleases | android/src/main/java/org/webrtc/Camera2Session.java:430-450 | teardown stops listening first, then closes the capture session, releases the surface and closes the device in that order; each handle is released iff it is present, the rejected session never; with all handles present all four happen |
| CameraSession.StopInternal | android/src/main/java/org/webrtc/Camera2Session.java:430-450 | teardown reports nothing, holds no handle afterwards and changes nothing else in the session; what it releases depends on the handles alone |
| CameraSession.ReportError | android/src/main/java/org/webrtc/Camera2Session.java:452-464 | always ends stopped with every handle released by the same teardown; exactly one notification, `OnFailure(Error)` iff there was no capture session and the state was not stopped, else `OnCameraError` |
| CameraSession.Disconnect | android/src/main/java/org/webrtc/Camera2Session.java:116-126 | same classification as an error: ends stopped and released, exactly one of `OnFailure(Disconnected)` or `OnCameraDisconnected` |
| CameraSession.StartFailureClassification | android/src/main/java/org/webrtc/Camera2Session.java:455-463 | an error, and likewise a disconnect (the same test at lines 117-124), is a start failure iff no capture session was stored and the state was not stopped; otherwise the event sink hears of it |
| CameraSession.Stop | android/src/main/java/org/webrtc/Camera2Session.java:417-428 | from stopped nothing changes and nothing is released; from running the state becomes stopped and teardown runs; never any notification |
| CameraSession.FindCaptureFormat | android/src/main/java/org/webrtc/Camera2Session.java:376-401 | with no frame-rate range or no size the error is reported and the format is untouched; otherwise the negotiated format is stored silently |
| CameraSession.OpenCamera | android/src/main/java/org/webrtc/Camera2Session.java:403-415 | always announces `OnCameraOpening` first; a refused open is reported as an error with full teardown, classified like any other |
| CameraSession.Probed | android/src/main/java/org/webrtc/Camera2Session.java:363-381 | reading the characteristics stores them with the sensor orientation, the facing and the frame-rate unit, and leaves the state, the format, the capture session and the first-frame flag alone |
| CameraSession.StartWith | android/src/main/java/org/webrtc/Camera2Session.java:372-373 | the camera is announced as opening and opened even after a missing format was reported, which then comes first; the session stays running iff it was running, both lists are non-empty and the open succeeded; at most one start failure; the normal case is pinned down by `StartWithSucceeds` |
| CameraSession.StartWithSucceeds | android/src/main/java/org/webrtc/Camera2Session.java:358-374 | with a frame-rate range and a size available and the open accepted, the start reports only `OnCameraOpening`, releases nothing, and leaves the probed session with the negotiated format |
| CameraSession.Start | android/src/main/java/org/webrtc/Camera2Session.java:358-374 | a characteristics failure is a reported error without any open; otherwise the start goes on with the characteristics read; never a fault, never a frame |
| CameraSession.TakeDevice | android/src/main/java/org/webrtc/Camera2Session.java:139-168 | the device and a surface are held afterwards; the still size is the largest JPEG size, or the earlier one when the list is empty; nothing else changes |
| CameraSession.Open | android/src/main/java/org/webrtc/Camera2Session.java:135-182 | takes the device without a state check; faults on a missing format after taking the device; a successful creation request changes nothing else and reports nothing; a refused one is reported and tears down the device and surface with whatever capture session was held |
| CameraSession.Configure | android/src/main/java/org/webrtc/Camera2Session.java:236-272 | faults exactly when device, format, characteristics or session is missing or the unit factor is zero; on success reports `OnDone` and issues the built request; a refused request is `OnCameraError`, never a start failure, with the teardown of the stored capture session, surface and device; the flash flag is left alone |
| CameraSession.Configured | android/src/main/java/org/webrtc/Camera2Session.java:202-233 | starts the request and then installs the frame listener, also after a refused request stopped the session; an accepted request leaves the capture session held and the listener installed with nothing else changed, releases nothing and issues exactly the request built from the format, unit factor, flash flag and characteristics; a refused one reports `OnCameraError` and tears down the stored capture session, the surface and the device |
| CameraSession.ConfigureFailed | android/src/main/java/org/webrtc/Camera2Session.java:195-199 | closes the rejected session before the ordered teardown; `OnFailure(Error)` while starting, `OnCameraError` otherwise |
| CameraSession.Frame | android/src/main/java/org/webrtc/Camera2Session.java:205-231 | a frame on a non-running session changes nothing and reports nothing; otherwise exactly one corrected frame (mirrored iff front-facing, buffer rotated by minus the sensor orientation, tagged with the frame orientation) and the first-frame flag is set |
| CameraSession.SwitchFlash | android/src/main/java/org/webrtc/Camera2Session.java:480-501 | always records the flash flag (on iff the option was 1), whatever follows; an accepted switch changes nothing else in the session, so a running session stays running with its handles; faults exactly when device, format, characteristics or capture session is missing or the unit factor is zero; an accepted request reports `OnDone` and issues the request built with the new flag, carrying the torch iff the option was 1 and no flash key otherwise; a refused request reports `OnCameraError` and stops with the teardown of every held handle |
| CameraSession.Step | android/src/main/java/org/webrtc/Camera2Session.java:116-231 | every callback keeps a stopped session stopped, never clears the first-frame flag, reports at most one start failure and only while stopping a running session, and a stopped session forwards no frame |
| CameraTypes.DescribeError | android/src/main/java/org/webrtc/Camera2Session.java:97-113 | every error code gets a description; the five known codes get their own kind, every other code the unknown kind, and the code is recoverable from it |
| CameraTypes.DescribeErrorOfCode | android/src/main/java/org/webrtc/Camera2Session.java:97-113 | the description of a known kind's code is that kind |
| Selection.FrameOrientation | android/src/main/java/org/webrtc/Camera2Session.java:466-472 | the reported rotation lies strictly between -360 and 360, is congruent modulo 360 to the sensor orientation plus the adjusted display rotation, and takes that sum's sign (non-negative when the sum is, non-positive when it is negative) |
| Selection.FrameOrientationInRange | android/src/main/java/org/webrtc/Camera2Session.java:466-472 | for a non-negative sensor orientation and a display rotation in [0, 360] the rotation is `(orientation + (front ? r : 360 - r)) % 360` and lies in [0, 360) |
| Selection.ListsMode | android/src/main/java/org/webrtc/Camera2Session.java:294-303 | the scan over a capability list finds a mode iff the mode is in the list |
| Selection.ChooseStabilization | android/src/main/java/org/webrtc/Camera2Session.java:276-305 | never both stabilizations on; optical on iff listed; video on iff optical on is not listed and video on is; the other key is then set off; otherwise both keys unset |
| Selection.ChooseFocus | android/src/main/java/org/webrtc/Camera2Session.java:307-319 | continuous-video focus is set iff the device lists it, otherwise the key is unset |
| Selection.BuildRequest | android/src/main/java/org/webrtc/Camera2Session.java:248-263 | recording template; each exposure bound is the Java quotient of the format's bound by the unit factor; exposure on and unlocked; torch iff the flash flag, otherwise no flash key; stabilization and focus as chosen |
| Selection.AeRangeRoundsDown | android/src/main/java/org/webrtc/Camera2Session.java:251-253 | for a positive unit factor and non-negative bounds, each exposure bound is the largest multiple of the factor not above the format's bound, divided by the factor |
| Selection.InsertByArea | android/src/main/java/org/webrtc/Camera2Session.java:153-158 | inserting adds exactly the one size to the multiset of the list, and the result starts with either the inserted size or the old head |
| Selection.InsertKeepsDescending | android/src/main/java/org/webrtc/Camera2Session.java:153-158 | inserting into a list descending by area keeps it descending |
| Selection.SortByAreaDescending | android/src/main/java/org/webrtc/Camera2Session.java:153-158 | the sort is a permutation of its input and is descending by area |
| Selection.LargestJpegSize | android/src/main/java/org/webrtc/Camera2Session.java:152-168 | an empty list yields no still size; otherwise the size is one of the listed sizes and has the largest area |
| Selection.FirstLargestIndex | android/src/main/java/org/webrtc/Camera2Session.java:152-160 | a single scan finds the first index whose size has the largest area |
| Selection.LargestJpegSizeByScan | android/src/main/java/org/webrtc/Camera2Session.java:152-160 | one scan without sorting finds the same still size as the sort-then-head pick, and none exactly for an empty list |
| Selection.LargestIsFirstLargest | android/src/main/java/org/webrtc/Camera2Session.java:152-160 | because the sort is stable, the chosen size is the first of largest area in the platform's order |
| JavaInt.Div | android/src/main/java/org/webrtc/Camera2Session.java:252-253 | the quotient's magnitude is the quotient of the magnitudes, its sign is positive only when the operands' signs agree, and it equals Dafny's quotient on non-negative operands |
| JavaInt.Rem | android/src/main/java/org/webrtc/Camera2Session.java:471 | the remainder is smaller in magnitude than the divisor, takes the dividend's sign, and equals Dafny's remainder for a non-negative dividend |
| JavaInt.DivRemIdentity | android/src/main/java/org/webrtc/Camera2Session.java:471 | quotient times divisor plus remainder gives back the dividend |
| SessionRuns.FaultEndsRun | android/src/main/java/org/webrtc/Camera2Session.java:239-264 | once a step ends in an uncaught exception (the unguarded dereferences and the division of the request start), the callbacks after it change nothing in the run |
| SessionRuns.StoppedStaysStopped | android/src/main/java/org/webrtc/Camera2Session.java:205-211 | no run moves a stopped session back to running, reports a start failure or forwards a frame |
| SessionRuns.AtMostOneStartFailure | android/src/main/java/org/webrtc/Camera2Session.java:452-464 | over any run the creator gets at most one `OnFailure`, and then the session has stopped |
| SessionRuns.FirstFrameStaysReported | android/src/main/java/org/webrtc/Camera2Session.java:213-218 | once set, the first-frame flag stays set for the rest of any run |
| SessionRuns.TeardownIsIdempotent | android/src/main/java/org/webrtc/Camera2Session.java:430-450 | a second teardown leaves the session as it is and only stops the listener again |
| SessionRuns.StopIsIdempotent | android/src/main/java/org/webrtc/Camera2Session.java:417-428 | a second stop changes nothing and emits nothing; two stops are one stop |
| SessionRuns.NoFormatsThenRefusedOpen | android/src/main/java/org/webrtc/Camera2Session.java:372-373 | with no capture size, start reports the failure, still announces the opening, and a refused open adds `OnCameraError` |
| SessionRuns.NoFormatsThenOpenFaults | android/src/main/java/org/webrtc/Camera2Session.java:139-141 | with no capture size, a camera that opens anyway dereferences the missing format |
| SessionRuns.ConfigureFailedThenDisconnect | android/src/main/java/org/webrtc/Camera2Session.java:116-126 | while starting, a configuration failure is reported as a start failure, and a disconnect that follows is reported as well, as a camera disconnect |
| SessionRuns.LateFrameIsDropped | android/src/main/java/org/webrtc/Camera2Session.java:208-211 | a frame after stop produces no notification and leaves the first-frame flag alone |
| SessionRuns.BackCameraRotationExample | android/src/main/java/org/webrtc/Camera2Session.java:468-471 | a back camera at sensor 0 and display 90 reports 270; a front camera at sensor 90 and display 0 reports 90 |
| SessionRuns.NormalLifecycle | android/src/main/java/org/webrtc/Camera2Session.java:202-271 | start, open, configure, one frame and stop, one callback after the other: no step faults, they report opening, nothing, done, one frame and nothing, one request is issued, and stop releases all four handles in teardown order |
| SessionRuns.SwitchFlashReissues | android/src/main/java/org/webrtc/Camera2Session.java:480-501 | switching the flash on and then off reports `OnDone` twice and issues a torch request, then one without a flash key |
| SessionRuns.SwitchFlashIsIdempotent | android/src/main/java/org/webrtc/Camera2Session.java:480-501 | switching the flash to the mode a successful switch just set changes nothing and repeats the same request and `OnDone` |

## Left out

- Thread confinement (`checkIsOnCameraThread`): every event is taken to arrive on the camera thread; the wrong-thread exception is not modelled.
- Android objects (`CameraDevice`, `Surface`, `CameraCaptureSession`, `ImageReader`, `Handler`): each handle is a presence flag and each platform call an event parameter or a trace entry; platform exceptions other than `CameraAccessException` (such as using a closed device) are not modelled.
- `createCaptureRequest` is taken to succeed on a present device; the event's `repeatingOk` stands for `setRepeatingRequest` accepting the request.
- The negotiation helpers `getClosestSupportedFramerateRange`, `getClosestSupportedSize`, `getFpsUnitFactor`, `convertFramerates`, `getSupportedSizes` and `getDeviceOrientation` are not part of this model: their results are parameters of the `Started` and `FrameArrived` events.
- `takePhoto`, `CapturePhoto` and the still-capture pipeline; the `getOutputSizes` fallback to 1920x1080 (the `DeviceOpened` event carries whatever sizes it returned); the image-reader surface added to the capture session outputs.
- The bridge callbacks of `switchFlash` (success and error callbacks, a missing `flashMode` option) and the hop onto the camera thread: setting the flag and re-running the request start are one step.
- Histograms, start and stop latency, logging, and `onCaptureFailed`, which only logs.
- `createTextureBufferWithModifiedTransformMatrix`: a forwarded frame records only the mirror flag and the buffer rotation passed to it.
- The error message strings: reasons are the `ErrorReason` and `DeviceErrorKind` values.
- `setTextureSize` and the frame listener's own delivery rules: a `FrameArrived` event stands for a delivery to the installed listener.
- The video stabilization and focus capability lists are read without a null check; the model takes them as always present.
- JavaInt.Div: does not model the 32-bit wrap-around of `Integer.MIN_VALUE / -1`; in the request's exposure range it needs a negative frame-rate unit factor, which the platform does not report.
- Selection.FrameOrientation: does not model 32-bit wrap-around of `cameraOrientation + rotation`, which needs orientations beyond two billion degrees.
- Selection.SortByAreaDescending: does not model 32-bit overflow of the comparator `b.h*b.w - a.h*a.w`, which needs sizes with areas beyond two billion pixels.
