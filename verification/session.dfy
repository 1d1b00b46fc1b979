/**
 The session state machine of a Camera2 capture session. Every callback the
 session receives on its camera thread (device opened / disconnected / errored /
 closed, capture session configured / failed, a frame, stop, a flash switch, and
 the outcome of start) is an `Event`; `Step` applies one event to an immutable
 `Session` record and returns an `Effect`: the new record, the notifications sent
 to the creator and event sink, the release actions performed, the repeating
 requests issued, and the fault, if the callback would end in an uncaught
 exception.
 */
module CameraSession {
  import opened Optional
  import opened CameraTypes
  import opened Selection

  datatype SessionState = Running | Stopped

  /** The failure kinds reported to the creator of the session. */
  datatype FailureType = Error | Disconnected

  /** Why an error was reported; stands for the message the source builds. */
  datatype ErrorReason =
    | CharacteristicsUnavailable
    | NoSupportedCaptureFormats
    | OpenCameraFailed
    | CreateSessionFailed
    | ConfigureSessionFailed
    | StartRequestFailed
    | DeviceError(kind: DeviceErrorKind)
    | DisconnectedOrEvicted

  /** Calls out of the session: to its creator (`OnDone`, `OnFailure`) and to its event sink. */
  datatype Notification =
    | OnDone
    | OnFailure(failure: FailureType, reason: ErrorReason)
    | OnCameraError(error: ErrorReason)
    | OnCameraDisconnected
    | OnCameraClosed
    | OnCameraOpening
    | OnFrameCaptured(rotation: int, mirror: bool, bufferRotation: int)

  /** Resource releases, in the order teardown is allowed to perform them. */
  datatype Release =
    | CloseRejectedSession
    | StopListening
    | CloseCaptureSession
    | ReleaseSurface
    | CloseCameraDevice

  /** An exception the source does not catch: a null dereference or a division by zero. */
  datatype Fault =
    | NullCharacteristics
    | NullCaptureFormat
    | NullCameraDevice
    | NullCaptureSession
    | DivisionByZero

  /**
   The session's mutable fields. Each platform handle (camera device, preview
   surface, capture session) is a presence flag; `listening` is whether the frame
   listener is installed; `stillOutput` is the size of the still-capture reader.
   */
  datatype Session = Session(
    state: SessionState,
    hasDevice: bool,
    hasSurface: bool,
    hasCaptureSession: bool,
    listening: bool,
    firstFrameReported: bool,
    flashOn: bool,
    chars: Option<Characteristics>,
    sensorOrientation: int,
    frontFacing: bool,
    fpsUnitFactor: int,
    format: Option<CaptureFormat>,
    stillOutput: Option<Size>)

  /** A freshly constructed session, before `start` runs. */
  const Initial: Session :=
    Session(Running, false, false, false, false, false, false, None, 0, false, 0, None, None)

  /**
   The callbacks a session receives. `Started` carries what `start` learns: the
   characteristics (absent when querying them failed), the format the negotiation
   helpers pick from them, and whether opening the camera was accepted.
   `DeviceOpened` carries the JPEG output sizes and whether creating the capture
   session was accepted; `SessionConfigured` and `FlashSwitched` carry whether
   the repeating request was accepted.
   */
  datatype Event =
    | Started(probe: Option<Characteristics>, negotiated: CaptureFormat, openOk: bool)
    | DeviceOpened(jpegSizes: seq<Size>, createOk: bool)
    | DeviceDisconnected
    | DeviceErrored(code: int)
    | DeviceClosed
    | SessionConfigured(repeatingOk: bool)
    | SessionConfigureFailed
    | FrameArrived(displayRotation: int)
    | StopRequested
    | FlashSwitched(flashMode: int, repeatingOk: bool)

  datatype Effect = Effect(
    session: Session,
    notes: seq<Notification>,
    releases: seq<Release>,
    issued: seq<CaptureRequest>,
    fault: Option<Fault>)

  // ---------------------------------------------------------------------------
  // Observations

  predicate Released(s: Session)
  {
    !s.hasDevice && !s.hasSurface && !s.hasCaptureSession && !s.listening
  }

  /** The session with its handles and listener cleared; teardown changes nothing else. */
  function WithoutHandles(s: Session): Session
  {
    s.(hasDevice := false, hasSurface := false, hasCaptureSession := false, listening := false)
  }

  function Rank(r: Release): int
  {
    match r
    case CloseRejectedSession => 0
    case StopListening => 1
    case CloseCaptureSession => 2
    case ReleaseSurface => 3
    case CloseCameraDevice => 4
  }

  /** Every release comes strictly after those of lower rank, so none is repeated. */
  ghost predicate InReleaseOrder(rs: seq<Release>)
  {
    forall i, j :: 0 <= i < j < |rs| ==> Rank(rs[i]) < Rank(rs[j])
  }

  function CountFailures(notes: seq<Notification>): nat
  {
    if |notes| == 0 then 0
    else (if notes[0].OnFailure? then 1 else 0) + CountFailures(notes[1..])
  }

  lemma {:induction false} CountFailuresAppend(a: seq<Notification>, b: seq<Notification>)
    ensures CountFailures(a + b) == CountFailures(a) + CountFailures(b)
  {
    if |a| == 0 {
      assert a + b == b;
    } else {
      assert (a + b)[1..] == a[1..] + b;
      CountFailuresAppend(a[1..], b);
    }
  }

  ghost predicate NoFrameReports(notes: seq<Notification>)
  {
    forall i :: 0 <= i < |notes| ==> !notes[i].OnFrameCaptured?
  }

  lemma NoFrameReportsAppend(a: seq<Notification>, b: seq<Notification>)
    ensures NoFrameReports(a) && NoFrameReports(b) ==> NoFrameReports(a + b)
  {
    if NoFrameReports(a) && NoFrameReports(b) {
      forall i | 0 <= i < |a + b|
        ensures !(a + b)[i].OnFrameCaptured?
      {
        if i < |a| {
          assert (a + b)[i] == a[i];
        } else {
          assert (a + b)[i] == b[i - |a|];
        }
      }
    }
  }

  // ---------------------------------------------------------------------------
  // Building effects

  function Quiet(s: Session): (e: Effect)
    ensures CountFailures(e.notes) == 0 && NoFrameReports(e.notes)
  {
    Effect(s, [], [], [], None)
  }

  function Faulted(s: Session, f: Fault): (e: Effect)
    ensures CountFailures(e.notes) == 0 && NoFrameReports(e.notes)
  {
    Effect(s, [], [], [], Some(f))
  }

  function Notify(s: Session, n: Notification): (e: Effect)
    ensures CountFailures(e.notes) == if n.OnFailure? then 1 else 0
    ensures NoFrameReports(e.notes) <==> !n.OnFrameCaptured?
  {
    Effect(s, [n], [], [], None)
  }

  /** `a` followed by `b`, where `b` starts from the session `a` left behind. */
  function Chain(a: Effect, b: Effect): (e: Effect)
    requires a.fault.None?
    ensures e.session == b.session && e.fault == b.fault
    ensures e.notes == a.notes + b.notes && e.releases == a.releases + b.releases
    ensures e.issued == a.issued + b.issued
    ensures CountFailures(e.notes) == CountFailures(a.notes) + CountFailures(b.notes)
    ensures NoFrameReports(a.notes) && NoFrameReports(b.notes) ==> NoFrameReports(e.notes)
  {
    CountFailuresAppend(a.notes, b.notes);
    NoFrameReportsAppend(a.notes, b.notes);
    Effect(b.session, a.notes + b.notes, a.releases + b.releases, a.issued + b.issued, b.fault)
  }

  // ---------------------------------------------------------------------------
  // Teardown

  /** The order teardown releases in: the listener first, the device last. */
  const TeardownOrder: seq<Release> := [StopListening, CloseCaptureSession, ReleaseSurface, CloseCameraDevice]

  /** The three platform handles a session may hold. */
  datatype Handles = Handles(captureSession: bool, surface: bool, device: bool)

  function HandlesOf(s: Session): Handles
  {
    Handles(s.hasCaptureSession, s.hasSurface, s.hasDevice)
  }

  /** Whether teardown has something to release for `r`; the listener is always stopped. */
  predicate Holds(h: Handles, r: Release)
  {
    match r
    case CloseRejectedSession => false
    case StopListening => true
    case CloseCaptureSession => h.captureSession
    case ReleaseSurface => h.surface
    case CloseCameraDevice => h.device
  }

  /** Dropping the head of an ordered list keeps it ordered. */
  lemma OrderedTail(order: seq<Release>)
    ensures |order| > 0 && InReleaseOrder(order) ==> InReleaseOrder(order[1..])
  {
    if |order| > 0 && InReleaseOrder(order) {
      forall i, j | 0 <= i < j < |order[1..]|
        ensures Rank(order[1..][i]) < Rank(order[1..][j])
      {
        assert order[1..][i] == order[i + 1] && order[1..][j] == order[j + 1];
      }
    }
  }

  /** In an ordered list the head ranks below everything after it. */
  lemma HeadRanksFirst(order: seq<Release>)
    ensures |order| > 0 && InReleaseOrder(order) ==> forall x :: x in order[1..] ==> Rank(order[0]) < Rank(x)
  {
    if |order| > 0 && InReleaseOrder(order) {
      forall x | x in order[1..]
        ensures Rank(order[0]) < Rank(x)
      {
        var k :| 0 <= k < |order[1..]| && order[1..][k] == x;
        assert order[k + 1] == x;
      }
    }
  }

  /** A release ranked below every element of an ordered list can go in front of it. */
  lemma OrderedCons(r: Release, rest: seq<Release>)
    ensures InReleaseOrder(rest) && (forall x :: x in rest ==> Rank(r) < Rank(x)) ==> InReleaseOrder([r] + rest)
  {
    if InReleaseOrder(rest) && (forall x :: x in rest ==> Rank(r) < Rank(x)) {
      forall i, j | 0 <= i < j < |[r] + rest|
        ensures Rank(([r] + rest)[i]) < Rank(([r] + rest)[j])
      {
        assert ([r] + rest)[j] == rest[j - 1] && rest[j - 1] in rest;
        if i > 0 {
          assert ([r] + rest)[i] == rest[i - 1];
        }
      }
    }
  }

  /** The releases of `order` that the session holds, in the same order. */
  function HeldReleases(h: Handles, order: seq<Release>): (rs: seq<Release>)
    ensures forall x :: x in rs <==> x in order && Holds(h, x)
    ensures InReleaseOrder(order) ==> InReleaseOrder(rs)
    ensures |order| > 0 && Holds(h, order[0]) ==> |rs| > 0 && rs[0] == order[0]
    ensures (forall i :: 0 <= i < |order| ==> Holds(h, order[i])) ==> rs == order
  {
    if |order| == 0 then []
    else
      var rest := HeldReleases(h, order[1..]);
      OrderedTail(order);
      HeadRanksFirst(order);
      OrderedCons(order[0], rest);
      assert order == [order[0]] + order[1..];
      if Holds(h, order[0]) then [order[0]] + rest else rest
  }

  /** The release actions of teardown: the listener, then each handle that is present. */
  function TeardownReleases(h: Handles): (rs: seq<Release>)
    ensures InReleaseOrder(rs)
    ensures |rs| > 0 && rs[0] == StopListening
    ensures CloseCaptureSession in rs <==> h.captureSession
    ensures ReleaseSurface in rs <==> h.surface
    ensures CloseCameraDevice in rs <==> h.device
    ensures CloseRejectedSession !in rs
    ensures h.captureSession && h.surface && h.device ==> rs == TeardownOrder
  {
    assert InReleaseOrder(TeardownOrder);
    assert TeardownOrder[0] == StopListening && Holds(h, StopListening);
    assert CloseCaptureSession in TeardownOrder && ReleaseSurface in TeardownOrder && CloseCameraDevice in TeardownOrder;
    assert h.captureSession && h.surface && h.device ==> forall i :: 0 <= i < |TeardownOrder| ==> Holds(h, TeardownOrder[i]);
    HeldReleases(h, TeardownOrder)
  }

  /**
   Stops the frame listener, then closes the capture session, releases the
   surface and closes the device, skipping each handle that is absent. What is
   released depends on the handles alone.
   */
  function StopInternal(s: Session): (e: Effect)
    ensures e.notes == [] && e.issued == [] && e.fault.None?
    ensures e.session == WithoutHandles(s) && Released(e.session)
    ensures e.releases == TeardownReleases(HandlesOf(s))
  {
    Effect(WithoutHandles(s), [], TeardownReleases(HandlesOf(s)), [], None)
  }

  /** A session is starting up while it is running and has no capture session yet. */
  predicate Starting(s: Session)
  {
    !s.hasCaptureSession && s.state != Stopped
  }

  /**
   Ends the session: the classification is taken first, then the state is set to
   stopped, teardown runs, and exactly one report goes out. There is no guard
   against an already stopped session: from there the report is an error on the
   running session.
   */
  function ReportError(s: Session, reason: ErrorReason): (e: Effect)
    ensures e.fault.None? && e.issued == []
    ensures e.session == WithoutHandles(s).(state := Stopped)
    ensures e.releases == TeardownReleases(HandlesOf(s))
    ensures e.notes == [if Starting(s) then OnFailure(Error, reason) else OnCameraError(reason)]
    ensures CountFailures(e.notes) == if Starting(s) then 1 else 0
    ensures NoFrameReports(e.notes)
  {
    var startFailure := Starting(s);
    var teardown := StopInternal(s.(state := Stopped));
    var report := if startFailure then OnFailure(Error, reason) else OnCameraError(reason);
    teardown.(notes := [report])
  }

  /** The device went away: the same classification as `ReportError`, reported as a disconnect. */
  function Disconnect(s: Session): (e: Effect)
    ensures e.fault.None? && e.issued == []
    ensures e.session == WithoutHandles(s).(state := Stopped)
    ensures e.releases == TeardownReleases(HandlesOf(s))
    ensures e.notes == [if Starting(s) then OnFailure(Disconnected, DisconnectedOrEvicted) else OnCameraDisconnected]
    ensures CountFailures(e.notes) == if Starting(s) then 1 else 0
    ensures NoFrameReports(e.notes)
  {
    var startFailure := Starting(s);
    var teardown := StopInternal(s.(state := Stopped));
    var report := if startFailure then OnFailure(Disconnected, DisconnectedOrEvicted) else OnCameraDisconnected;
    teardown.(notes := [report])
  }

  /**
   An error or a disconnect counts as a start failure exactly when no capture
   session was stored yet and the session had not stopped, whatever the reason;
   a running session with a capture session, and any stopped session, gets the
   event-sink callback instead.
   */
  lemma StartFailureClassification(s: Session, reason: ErrorReason)
    ensures ReportError(s, reason).notes[0].OnFailure? <==> !s.hasCaptureSession && s.state == Running
    ensures Disconnect(s).notes[0].OnFailure? <==> !s.hasCaptureSession && s.state == Running
    ensures ReportError(s, reason).notes[0].OnCameraError? <==> s.hasCaptureSession || s.state == Stopped
  {
  }

  /** Caller-initiated stop: tears down once and reports nothing. */
  function Stop(s: Session): (e: Effect)
    ensures e.notes == [] && e.issued == [] && e.fault.None?
    ensures s.state == Stopped ==> e.session == s && e.releases == []
    ensures s.state == Running ==> e.session == WithoutHandles(s).(state := Stopped)
    ensures s.state == Running ==> e.releases == TeardownReleases(HandlesOf(s))
    ensures e.session.firstFrameReported == s.firstFrameReported
  {
    if s.state != Stopped then StopInternal(s.(state := Stopped)) else Quiet(s)
  }

  // ---------------------------------------------------------------------------
  // Start

  /**
   Looks for a capture format. With no frame-rate range or no size the error is
   reported and the format stays as it was; otherwise the negotiated format is
   stored.
   */
  function FindCaptureFormat(s: Session, c: Characteristics, negotiated: CaptureFormat): (e: Effect)
    ensures e.fault.None? && e.issued == [] && NoFrameReports(e.notes)
    ensures |c.framerateRanges| > 0 && |c.sizes| > 0 ==>
              e.session == s.(format := Some(negotiated)) && e.notes == [] && e.releases == []
    ensures |c.framerateRanges| == 0 || |c.sizes| == 0 ==> e == ReportError(s, NoSupportedCaptureFormats)
    ensures e.session.state == if |c.framerateRanges| == 0 || |c.sizes| == 0 then Stopped else s.state
    ensures e.session.chars == s.chars && e.session.sensorOrientation == s.sensorOrientation
    ensures e.session.firstFrameReported == s.firstFrameReported
    ensures CountFailures(e.notes) == if (|c.framerateRanges| == 0 || |c.sizes| == 0) && Starting(s) then 1 else 0
    ensures CountFailures(e.notes) <= 1
    ensures CountFailures(e.notes) == 1 ==> s.state == Running && e.session.state == Stopped
  {
    if |c.framerateRanges| == 0 || |c.sizes| == 0 then ReportError(s, NoSupportedCaptureFormats)
    else Quiet(s.(format := Some(negotiated)))
  }

  /**
   Announces the opening and asks the platform to open the camera, whatever
   state the session is in; a refused open is reported like any other error.
   */
  function OpenCamera(s: Session, openOk: bool): (e: Effect)
    ensures e.fault.None? && e.issued == [] && NoFrameReports(e.notes)
    ensures |e.notes| > 0 && e.notes[0] == OnCameraOpening
    ensures openOk ==> e.session == s && e.notes == [OnCameraOpening] && e.releases == []
    ensures !openOk ==> e.session == WithoutHandles(s).(state := Stopped) && e.releases == TeardownReleases(HandlesOf(s))
    ensures !openOk ==> e.notes == [OnCameraOpening, ReportError(s, OpenCameraFailed).notes[0]]
    ensures CountFailures(e.notes) == if !openOk && Starting(s) then 1 else 0
    ensures CountFailures(e.notes) == 1 ==> s.state == Running && e.session.state == Stopped
    ensures s.state == Stopped ==> CountFailures(e.notes) == 0 && e.session.state == Stopped
    ensures e.session.state == if openOk then s.state else Stopped
    ensures e.session.chars == s.chars && e.session.sensorOrientation == s.sensorOrientation
    ensures e.session.firstFrameReported == s.firstFrameReported
    ensures e.session.format == s.format
  {
    var opening := Notify(s, OnCameraOpening);
    if openOk then opening else Chain(opening, ReportError(s, OpenCameraFailed))
  }

  /** The session with the characteristics read: orientation, facing and frame-rate unit. */
  function Probed(s: Session, c: Characteristics): (t: Session)
    ensures t.chars == Some(c) && t.sensorOrientation == c.sensorOrientation
    ensures t.frontFacing == c.frontFacing && t.fpsUnitFactor == c.fpsUnitFactor
    ensures t.state == s.state && t.format == s.format && t.firstFrameReported == s.firstFrameReported
    ensures Starting(t) == Starting(s)
  {
    s.(chars := Some(c), sensorOrientation := c.sensorOrientation,
       frontFacing := c.frontFacing, fpsUnitFactor := c.fpsUnitFactor)
  }

  /**
   With the characteristics read: looks for a capture format and opens the
   camera. When no capture format exists the error is reported and the camera is
   STILL opened, so a later open failure is reported a second time, as a camera
   error.
   */
  function StartWith(s: Session, c: Characteristics, negotiated: CaptureFormat, openOk: bool): (e: Effect)
    ensures e.fault.None? && e.issued == [] && NoFrameReports(e.notes)
    ensures OnCameraOpening in e.notes
    ensures e.session.chars == Some(c) && e.session.sensorOrientation == c.sensorOrientation
    ensures |c.framerateRanges| > 0 && |c.sizes| > 0 ==> e.session.format == Some(negotiated)
    ensures |c.framerateRanges| == 0 || |c.sizes| == 0 ==> e.session.format == s.format
    ensures (|c.framerateRanges| == 0 || |c.sizes| == 0) && Starting(s) ==>
              e.notes[0] == OnFailure(Error, NoSupportedCaptureFormats)
    ensures e.session.state == Running <==> s.state == Running && |c.framerateRanges| > 0 && |c.sizes| > 0 && openOk
    ensures CountFailures(e.notes) <= 1
    ensures CountFailures(e.notes) == 1 ==> s.state == Running && e.session.state == Stopped
    ensures e.session.firstFrameReported == s.firstFrameReported
  {
    var probed := Probed(s, c);
    var found := FindCaptureFormat(probed, c, negotiated);
    var opening := OpenCamera(found.session, openOk);
    assert |found.notes| > 0 ==> (found.notes + opening.notes)[0] == found.notes[0];
    Chain(found, opening)
  }

  /**
   A normal start, with a frame-rate range and a size to choose from and an open
   that is accepted, only announces the opening: it releases nothing and leaves
   the session probed with the negotiated format.
   */
  lemma StartWithSucceeds(s: Session, c: Characteristics, negotiated: CaptureFormat)
    requires |c.framerateRanges| > 0 && |c.sizes| > 0
    ensures var e := StartWith(s, c, negotiated, true);
      && e.notes == [OnCameraOpening] && e.releases == []
      && e.session == Probed(s, c).(format := Some(negotiated))
  {
  }

  /** Reads the characteristics; when they cannot be read the error is reported and nothing is opened. */
  function Start(s: Session, probe: Option<Characteristics>, negotiated: CaptureFormat, openOk: bool): (e: Effect)
    ensures probe.None? ==> e == ReportError(s, CharacteristicsUnavailable)
    ensures probe.Some? ==> e == StartWith(s, probe.value, negotiated, openOk)
    ensures e.fault.None? && e.issued == [] && NoFrameReports(e.notes)
    ensures CountFailures(e.notes) <= 1
    ensures CountFailures(e.notes) == 1 ==> s.state == Running && e.session.state == Stopped
    ensures s.state == Stopped ==> e.session.state == Stopped
    ensures e.session.firstFrameReported == s.firstFrameReported
  {
    match probe
    case None => ReportError(s, CharacteristicsUnavailable)
    case Some(c) => StartWith(s, c, negotiated, openOk)
  }

  // ---------------------------------------------------------------------------
  // Device callbacks

  /**
   The device and a new preview surface are taken; the still-capture size is the
   largest JPEG size, and an empty list leaves the earlier reader in place.
   */
  function TakeDevice(s: Session, jpegSizes: seq<Size>): (t: Session)
    ensures t.hasDevice && t.hasSurface
    ensures |jpegSizes| > 0 ==> t.stillOutput == LargestJpegSize(jpegSizes)
    ensures |jpegSizes| == 0 ==> t.stillOutput == s.stillOutput
    ensures t == s.(hasDevice := true, hasSurface := true, stillOutput := t.stillOutput)
  {
    var still := if |jpegSizes| > 0 then LargestJpegSize(jpegSizes) else s.stillOutput;
    s.(hasDevice := true, hasSurface := true, stillOutput := still)
  }

  /**
   The device opened. No state check: the device and a new preview surface are
   taken even on a stopped session, once the capture format has been read. Then
   the capture session is requested.
   */
  function Open(s: Session, jpegSizes: seq<Size>, createOk: bool): (e: Effect)
    ensures e.issued == []
    ensures s.format.None? ==> e.fault == Some(NullCaptureFormat) && e.session == s.(hasDevice := true)
    ensures s.format.None? ==> e.notes == [] && e.releases == []
    ensures s.format.Some? ==> e.fault.None?
    ensures s.format.Some? && createOk ==> e.notes == [] && e.releases == [] && e.session == TakeDevice(s, jpegSizes)
    ensures s.format.Some? && !createOk ==> e.session.state == Stopped && Released(e.session)
    ensures s.format.Some? && !createOk ==> e.releases == TeardownReleases(Handles(s.hasCaptureSession, true, true))
    ensures s.format.Some? && !createOk ==>
              e.notes == [if Starting(s) then OnFailure(Error, CreateSessionFailed) else OnCameraError(CreateSessionFailed)]
    ensures s.format.Some? ==> e.session.stillOutput == TakeDevice(s, jpegSizes).stillOutput
    ensures CountFailures(e.notes) == (if s.format.Some? && !createOk && Starting(s) then 1 else 0)
    ensures s.state == Stopped ==> e.session.state == Stopped
    ensures e.session.firstFrameReported == s.firstFrameReported
    ensures NoFrameReports(e.notes)
  {
    if s.format.None? then Faulted(s.(hasDevice := true), NullCaptureFormat)
    else
      var t := TakeDevice(s, jpegSizes);
      assert Starting(t) == Starting(s) && HandlesOf(t) == Handles(s.hasCaptureSession, true, true);
      if createOk then Quiet(t) else ReportError(t, CreateSessionFailed)
  }

  // ---------------------------------------------------------------------------
  // Capture session

  /**
   Starts the repeating request on a capture session. The session handle is
   stored FIRST, so a failing repeating request is always an error on a running
   session, never a start failure. A successful start reports `OnDone` every
   time it runs.
   */
  function Configure(s: Session, sessionPresent: bool, repeatingOk: bool): (e: Effect)
    ensures e.fault.None? <==>
              s.hasDevice && s.format.Some? && s.fpsUnitFactor != 0 && s.chars.Some? && sessionPresent
    ensures e.fault.Some? ==> e.session == s.(hasCaptureSession := sessionPresent) && e.notes == [] && e.releases == []
    ensures e.fault.None? && repeatingOk ==> e.notes == [OnDone] && e.session == s.(hasCaptureSession := true)
    ensures e.fault.None? && repeatingOk ==> e.releases == [] && |e.issued| == 1
    ensures e.fault.None? && repeatingOk ==>
              e.issued[0] == BuildRequest(s.format.value, s.fpsUnitFactor, s.flashOn, s.chars.value)
    ensures e.fault.None? && !repeatingOk ==> e.notes == [OnCameraError(StartRequestFailed)] && e.issued == []
    ensures e.fault.None? && !repeatingOk ==> e.session.state == Stopped && Released(e.session)
    ensures e.fault.None? && !repeatingOk ==>
              e.releases == TeardownReleases(Handles(true, s.hasSurface, s.hasDevice))
    ensures e.session.flashOn == s.flashOn
    ensures CountFailures(e.notes) == 0
    ensures s.state == Stopped ==> e.session.state == Stopped
    ensures s.firstFrameReported ==> e.session.firstFrameReported
    ensures NoFrameReports(e.notes)
  {
    var s1 := s.(hasCaptureSession := sessionPresent);
    if !s1.hasDevice then Faulted(s1, NullCameraDevice)
    else if s1.format.None? then Faulted(s1, NullCaptureFormat)
    else if s1.fpsUnitFactor == 0 then Faulted(s1, DivisionByZero)
    else if s1.chars.None? then Faulted(s1, NullCharacteristics)
    else if !sessionPresent then Faulted(s1, NullCaptureSession)
    else if !repeatingOk then ReportError(s1, StartRequestFailed)
    else
      var request := BuildRequest(s1.format.value, s1.fpsUnitFactor, s1.flashOn, s1.chars.value);
      Effect(s1, [OnDone], [], [request], None)
  }

  /**
   The capture session is configured: the request is started, and then the frame
   listener is installed, even when starting the request failed and tore the
   session down.
   */
  function Configured(s: Session, repeatingOk: bool): (e: Effect)
    ensures e.fault.None? <==> s.hasDevice && s.format.Some? && s.fpsUnitFactor != 0 && s.chars.Some?
    ensures e.fault.None? ==> e.session.listening
    ensures e.fault.None? && repeatingOk ==> e.notes == [OnDone] && e.session.state == s.state
    ensures e.fault.None? && repeatingOk ==> e.session == s.(hasCaptureSession := true, listening := true)
    ensures e.fault.None? && repeatingOk ==>
              e.releases == [] && e.issued == [BuildRequest(s.format.value, s.fpsUnitFactor, s.flashOn, s.chars.value)]
    ensures e.fault.None? && !repeatingOk ==> e.notes == [OnCameraError(StartRequestFailed)] && e.session.state == Stopped
    ensures e.fault.None? && !repeatingOk ==> e.session.hasCaptureSession == false
    ensures e.fault.None? && !repeatingOk ==>
              e.releases == TeardownReleases(Handles(true, s.hasSurface, s.hasDevice))
    ensures CountFailures(e.notes) == 0
    ensures s.state == Stopped ==> e.session.state == Stopped
    ensures s.firstFrameReported ==> e.session.firstFrameReported
    ensures NoFrameReports(e.notes)
  {
    var started := Configure(s, true, repeatingOk);
    if started.fault.Some? then started else started.(session := started.session.(listening := true))
  }

  /** Closing the rejected session ranks first, so it can go in front of any teardown. */
  lemma RejectedSessionFirst(rs: seq<Release>)
    requires InReleaseOrder(rs) && CloseRejectedSession !in rs
    ensures InReleaseOrder([CloseRejectedSession] + rs)
  {
    forall x | x in rs
      ensures Rank(CloseRejectedSession) < Rank(x)
    {
    }
    OrderedCons(CloseRejectedSession, rs);
  }

  /** Configuration failed: the rejected session is closed, then the error is reported. */
  function ConfigureFailed(s: Session): (e: Effect)
    ensures e.fault.None? && e.issued == []
    ensures e.session.state == Stopped && Released(e.session)
    ensures e.releases == [CloseRejectedSession] + TeardownReleases(HandlesOf(s))
    ensures InReleaseOrder(e.releases)
    ensures e.notes == [if Starting(s) then OnFailure(Error, ConfigureSessionFailed) else OnCameraError(ConfigureSessionFailed)]
    ensures CountFailures(e.notes) == if Starting(s) then 1 else 0
    ensures s.state == Stopped ==> e.session.state == Stopped
    ensures s.firstFrameReported ==> e.session.firstFrameReported
    ensures NoFrameReports(e.notes)
  {
    var reported := ReportError(s, ConfigureSessionFailed);
    RejectedSessionFirst(reported.releases);
    reported.(releases := [CloseRejectedSession] + reported.releases)
  }

  // ---------------------------------------------------------------------------
  // Frames

  /**
   A frame from the listener. Late frames, after the session stopped, are
   dropped. Otherwise the first-frame flag is set and exactly one corrected frame
   is forwarded: mirrored for a front-facing camera, its buffer rotated back by
   the sensor orientation, and tagged with the frame orientation.
   */
  function Frame(s: Session, displayRotation: int): (e: Effect)
    ensures e.releases == [] && e.issued == [] && e.fault.None?
    ensures s.state != Running ==> e.session == s && e.notes == []
    ensures s.state == Running ==> e.session == s.(firstFrameReported := true) && |e.notes| == 1
    ensures s.state == Running ==> e.notes[0].OnFrameCaptured? && e.notes[0].mirror == s.frontFacing
    ensures s.state == Running ==> e.notes[0].bufferRotation == -s.sensorOrientation
    ensures s.state == Running ==>
              e.notes[0].rotation == FrameOrientation(s.sensorOrientation, s.frontFacing, displayRotation)
    ensures s.state == Running && s.sensorOrientation >= 0 && 0 <= displayRotation <= 360 ==>
              0 <= e.notes[0].rotation < 360
  {
    if s.state != Running then Quiet(s)
    else
      var rotation := FrameOrientation(s.sensorOrientation, s.frontFacing, displayRotation);
      Notify(s.(firstFrameReported := true), OnFrameCaptured(rotation, s.frontFacing, -s.sensorOrientation))
  }

  // ---------------------------------------------------------------------------
  // Flash

  /**
   Records whether the torch is wanted (option value 1) and re-runs the request
   start on the stored capture session, which reports `OnDone` again.
   */
  function SwitchFlash(s: Session, flashMode: int, repeatingOk: bool): (e: Effect)
    ensures e.session.flashOn == (flashMode == FlashOptionOn)
    ensures e.fault.None? <==>
              s.hasDevice && s.format.Some? && s.fpsUnitFactor != 0 && s.chars.Some? && s.hasCaptureSession
    ensures e.fault.None? && repeatingOk ==> e.notes == [OnDone] && e.releases == [] && |e.issued| == 1
    ensures e.fault.None? && repeatingOk ==> e.session == s.(flashOn := flashMode == FlashOptionOn)
    ensures e.fault.None? && repeatingOk ==>
              e.issued[0] == BuildRequest(s.format.value, s.fpsUnitFactor, flashMode == FlashOptionOn, s.chars.value)
    ensures e.fault.None? && repeatingOk ==> (e.issued[0].flashMode == Some(FlashModeTorch) <==> flashMode == FlashOptionOn)
    ensures e.fault.None? && repeatingOk ==> (e.issued[0].flashMode.None? <==> flashMode != FlashOptionOn)
    ensures e.fault.None? && !repeatingOk ==>
              e.notes == [OnCameraError(StartRequestFailed)] && e.issued == [] && e.session.state == Stopped
    ensures e.fault.None? && !repeatingOk ==>
              Released(e.session) && e.releases == TeardownReleases(HandlesOf(s))
    ensures CountFailures(e.notes) == 0
    ensures s.state == Stopped ==> e.session.state == Stopped
    ensures s.firstFrameReported ==> e.session.firstFrameReported
    ensures NoFrameReports(e.notes)
  {
    var flagged := s.(flashOn := flashMode == FlashOptionOn);
    Configure(flagged, flagged.hasCaptureSession, repeatingOk)
  }

  // ---------------------------------------------------------------------------
  // The step function

  /**
   Applies one callback. The state only ever moves from running to stopped, the
   first-frame flag never reverts, at most one start failure is reported per
   step, and only by a running session that the step stops.
   */
  function Step(s: Session, ev: Event): (e: Effect)
    ensures s.state == Stopped ==> e.session.state == Stopped
    ensures s.firstFrameReported ==> e.session.firstFrameReported
    ensures CountFailures(e.notes) <= 1
    ensures CountFailures(e.notes) == 1 ==> s.state == Running && e.session.state == Stopped
    ensures s.state == Stopped ==> NoFrameReports(e.notes)
  {
    match ev
    case Started(probe, negotiated, openOk) => Start(s, probe, negotiated, openOk)
    case DeviceOpened(jpegSizes, createOk) => Open(s, jpegSizes, createOk)
    case DeviceDisconnected => Disconnect(s)
    case DeviceErrored(code) => ReportError(s, DeviceError(DescribeError(code)))
    case DeviceClosed => Notify(s, OnCameraClosed)
    case SessionConfigured(repeatingOk) => Configured(s, repeatingOk)
    case SessionConfigureFailed => ConfigureFailed(s)
    case FrameArrived(displayRotation) => Frame(s, displayRotation)
    case StopRequested => Stop(s)
    case FlashSwitched(flashMode, repeatingOk) => SwitchFlash(s, flashMode, repeatingOk)
  }
}
