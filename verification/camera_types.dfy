/**
 Values a Camera2 session works with: sizes, frame-rate ranges, the negotiated
 capture format, the device characteristics it reads once at start, and the
 platform constants the session compares against or writes into a request.
 The constants are the published values of the Android camera2 API.
 */
module CameraTypes {
  import opened Optional

  datatype Size = Size(width: int, height: int)

  /** A frame-rate range in the unit the capabilities were reported in. */
  datatype FramerateRange = FramerateRange(min: int, max: int)

  /** The size and frame-rate range the session captures with. */
  datatype CaptureFormat = CaptureFormat(width: int, height: int, framerate: FramerateRange)

  /**
   The part of the device characteristics the session reads. The optical
   stabilization list may be absent; the video stabilization and focus lists are
   read without a null check, so they are always present here.
   */
  datatype Characteristics = Characteristics(
    sensorOrientation: int,
    frontFacing: bool,
    fpsUnitFactor: int,
    framerateRanges: seq<FramerateRange>,
    sizes: seq<Size>,
    opticalStabilizationModes: Option<seq<int>>,
    videoStabilizationModes: seq<int>,
    focusModes: seq<int>)

  const TemplateRecord: int := 3
  const AeModeOn: int := 1
  const FlashModeTorch: int := 2
  const OpticalStabilizationOff: int := 0
  const OpticalStabilizationOn: int := 1
  const VideoStabilizationOff: int := 0
  const VideoStabilizationOn: int := 1
  const AfModeContinuousVideo: int := 3

  /** The `flashMode` option value that switches the torch on. */
  const FlashOptionOn: int := 1

  /** The error codes a camera device reports through its state callback. */
  const ErrorCameraInUse: int := 1
  const ErrorMaxCamerasInUse: int := 2
  const ErrorCameraDisabled: int := 3
  const ErrorCameraDevice: int := 4
  const ErrorCameraService: int := 5

  /** What an error code means; the message text itself is not modelled. */
  datatype DeviceErrorKind =
    | CameraInUse
    | MaxCamerasInUse
    | CameraDisabled
    | CameraDeviceFatal
    | CameraServiceFatal
    | UnknownCameraError(code: int)

  function ErrorCodeOf(kind: DeviceErrorKind): int
  {
    match kind
    case CameraInUse => ErrorCameraInUse
    case MaxCamerasInUse => ErrorMaxCamerasInUse
    case CameraDisabled => ErrorCameraDisabled
    case CameraDeviceFatal => ErrorCameraDevice
    case CameraServiceFatal => ErrorCameraService
    case UnknownCameraError(c) => c
  }

  /** Classifies a device error code; every code gets a description, known or not. */
  function DescribeError(code: int): (kind: DeviceErrorKind)
    ensures ErrorCodeOf(kind) == code
    ensures kind.UnknownCameraError? <==> !(ErrorCameraInUse <= code <= ErrorCameraService)
  {
    if code == ErrorCameraDevice then CameraDeviceFatal
    else if code == ErrorCameraDisabled then CameraDisabled
    else if code == ErrorCameraInUse then CameraInUse
    else if code == ErrorCameraService then CameraServiceFatal
    else if code == ErrorMaxCamerasInUse then MaxCamerasInUse
    else UnknownCameraError(code)
  }

  /** A known kind survives the trip through its code. */
  lemma DescribeErrorOfCode(kind: DeviceErrorKind)
    requires !kind.UnknownCameraError? || !(ErrorCameraInUse <= kind.code <= ErrorCameraService)
    ensures DescribeError(ErrorCodeOf(kind)) == kind
  {
  }
}
