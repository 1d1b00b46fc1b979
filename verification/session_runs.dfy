/**
 Sequences of callbacks delivered to one session, in the order the camera thread
 processes them, and what the session promises across a whole run.
 */
module SessionRuns {
  import opened Optional
  import opened CameraTypes
  import opened Selection
  import opened CameraSession

  /** Applies the callbacks in order. A fault ends the run: the camera thread has thrown. */
  function Run(s: Session, events: seq<Event>): (e: Effect)
    decreases |events|
  {
    if |events| == 0 then Quiet(s)
    else
      var first := Step(s, events[0]);
      if first.fault.Some? then first
      else Chain(first, Run(first.session, events[1..]))
  }

  /**
   A fault ends the run: once the camera thread has thrown, the callbacks that
   would have followed change nothing.
   */
  lemma {:induction false} FaultEndsRun(s: Session, events: seq<Event>, later: seq<Event>)
    ensures Run(s, events).fault.Some? ==> Run(s, events + later) == Run(s, events)
    decreases |events|
  {
    if |events| > 0 {
      assert (events + later)[0] == events[0];
      assert (events + later)[1..] == events[1..] + later;
      var first := Step(s, events[0]);
      if first.fault.None? {
        FaultEndsRun(first.session, events[1..], later);
      }
    }
  }

  /**
   Stopped is final: nothing moves a stopped session back to running, and a
   stopped session neither reports a start failure nor forwards a frame again.
   */
  lemma {:induction false} StoppedStaysStopped(s: Session, events: seq<Event>)
    requires s.state == Stopped
    ensures Run(s, events).session.state == Stopped
    ensures CountFailures(Run(s, events).notes) == 0
    ensures NoFrameReports(Run(s, events).notes)
    decreases |events|
  {
    if |events| > 0 {
      var first := Step(s, events[0]);
      if first.fault.None? {
        StoppedStaysStopped(first.session, events[1..]);
      }
    }
  }

  /**
   The creator hears of a start failure at most once per session, and only a
   session that has stopped reports one.
   */
  lemma {:induction false} AtMostOneStartFailure(s: Session, events: seq<Event>)
    ensures CountFailures(Run(s, events).notes) <= 1
    ensures CountFailures(Run(s, events).notes) == 1 ==> Run(s, events).session.state == Stopped
    decreases |events|
  {
    if |events| > 0 {
      var first := Step(s, events[0]);
      if first.fault.None? {
        if CountFailures(first.notes) == 1 {
          StoppedStaysStopped(first.session, events[1..]);
        } else {
          AtMostOneStartFailure(first.session, events[1..]);
        }
      }
    }
  }

  /** Once the first frame has been reported, the flag stays set for the rest of the run. */
  lemma {:induction false} FirstFrameStaysReported(s: Session, events: seq<Event>)
    requires s.firstFrameReported
    ensures Run(s, events).session.firstFrameReported
    decreases |events|
  {
    if |events| > 0 {
      var first := Step(s, events[0]);
      if first.fault.None? {
        FirstFrameStaysReported(first.session, events[1..]);
      }
    }
  }

  /** Teardown tolerates absent handles: a second teardown only stops the listener again. */
  lemma TeardownIsIdempotent(s: Session)
    ensures var again := StopInternal(StopInternal(s).session);
      again.session == StopInternal(s).session && again.releases == [StopListening]
  {
  }

  /** A second stop changes nothing and emits nothing. */
  lemma StopIsIdempotent(s: Session)
    ensures var once := Step(s, StopRequested);
      Step(once.session, StopRequested) == Quiet(once.session)
    ensures Run(s, [StopRequested, StopRequested]) == Run(s, [StopRequested])
  {
    var once := Step(s, StopRequested);
    assert [StopRequested, StopRequested][1..] == [StopRequested];
    assert Run(once.session, [StopRequested]) == Chain(Quiet(once.session), Run(once.session, []));
  }

  // ---------------------------------------------------------------------------
  // Scenarios

  function Capabilities(sizes: seq<Size>, fpsUnitFactor: int): Characteristics
  {
    Characteristics(90, true, fpsUnitFactor, [FramerateRange(15000, 30000)], sizes, None, [], [])
  }

  /**
   Start without any capture size: the failure is reported, the camera is still
   opened, and when the open is refused a second report follows, as a camera
   error on a session that has already failed.
   */
  lemma NoFormatsThenRefusedOpen(negotiated: CaptureFormat)
    ensures Step(Initial, Started(Some(Capabilities([], 1)), negotiated, false)).notes
              == [OnFailure(Error, NoSupportedCaptureFormats), OnCameraOpening, OnCameraError(OpenCameraFailed)]
  {
  }

  /** Start without any capture size, then the camera opens: the missing format is dereferenced. */
  lemma NoFormatsThenOpenFaults(negotiated: CaptureFormat, jpegSizes: seq<Size>, createOk: bool)
    ensures Run(Initial, [Started(Some(Capabilities([], 1)), negotiated, true), DeviceOpened(jpegSizes, createOk)]).fault
              == Some(NullCaptureFormat)
  {
    var events := [Started(Some(Capabilities([], 1)), negotiated, true), DeviceOpened(jpegSizes, createOk)];
    assert events[1..] == [DeviceOpened(jpegSizes, createOk)];
  }

  /**
   A configuration failure is a start failure; a disconnect arriving afterwards
   is then reported as well, as a disconnect of a running session.
   */
  lemma ConfigureFailedThenDisconnect(s: Session)
    requires Starting(s)
    ensures var failed := Step(s, SessionConfigureFailed);
      && failed.fault.None? && failed.notes == [OnFailure(Error, ConfigureSessionFailed)]
      && Step(failed.session, DeviceDisconnected).notes == [OnCameraDisconnected]
  {
    assert Step(s, SessionConfigureFailed) == ConfigureFailed(s);
  }

  /** A frame delivered after stop is dropped: nothing is reported at all. */
  lemma LateFrameIsDropped(s: Session, displayRotation: int)
    ensures Run(s, [StopRequested, FrameArrived(displayRotation)]).notes == []
    ensures Run(s, [StopRequested, FrameArrived(displayRotation)]).session.firstFrameReported == s.firstFrameReported
  {
    var events := [StopRequested, FrameArrived(displayRotation)];
    var stopped := Step(s, events[0]);
    var late := Step(stopped.session, events[1]);
    assert events[1..] == [events[1]] && events[1..][1..] == [];
    assert Run(stopped.session, events[1..]) == Chain(late, Quiet(late.session));
  }

  /** A back-facing camera with sensor orientation 0 at display rotation 90 reports 270. */
  lemma BackCameraRotationExample()
    ensures FrameOrientation(0, false, 90) == 270
    ensures FrameOrientation(90, true, 0) == 90
  {
  }

  /** The session after a successful start with the scenario capabilities. */
  function StartedSession(sizes: seq<Size>, negotiated: CaptureFormat): Session
  {
    Initial.(chars := Some(Capabilities(sizes, 1000)), sensorOrientation := 90, frontFacing := true,
             fpsUnitFactor := 1000, format := Some(negotiated))
  }

  /** The session after the device opened and the capture session was requested. */
  function OpenedSession(s: Session, jpegSizes: seq<Size>): Session
  {
    s.(hasDevice := true, hasSurface := true,
       stillOutput := if |jpegSizes| > 0 then LargestJpegSize(jpegSizes) else s.stillOutput)
  }

  /** The session once the repeating request runs and the listener is installed. */
  function ConfiguredSession(s: Session): Session
  {
    s.(hasCaptureSession := true, listening := true)
  }

  lemma LifecycleStart(sizes: seq<Size>, negotiated: CaptureFormat)
    requires |sizes| > 0
    ensures Step(Initial, Started(Some(Capabilities(sizes, 1000)), negotiated, true))
              == Effect(StartedSession(sizes, negotiated), [OnCameraOpening], [], [], None)
  {
  }

  lemma LifecycleOpen(s: Session, jpegSizes: seq<Size>)
    requires s.format.Some?
    ensures Step(s, DeviceOpened(jpegSizes, true)) == Quiet(OpenedSession(s, jpegSizes))
  {
  }

  lemma LifecycleConfigured(s: Session)
    requires s.hasDevice && s.format.Some? && s.chars.Some? && s.fpsUnitFactor != 0
    ensures Step(s, SessionConfigured(true))
              == Effect(ConfiguredSession(s), [OnDone], [],
                        [BuildRequest(s.format.value, s.fpsUnitFactor, s.flashOn, s.chars.value)], None)
  {
    assert Step(s, SessionConfigured(true)) == Configured(s, true);
  }

  lemma LifecycleFrame(s: Session, displayRotation: int)
    requires s.state == Running
    ensures Step(s, FrameArrived(displayRotation))
              == Notify(s.(firstFrameReported := true),
                        OnFrameCaptured(FrameOrientation(s.sensorOrientation, s.frontFacing, displayRotation),
                                        s.frontFacing, -s.sensorOrientation))
  {
  }

  lemma LifecycleStop(s: Session)
    requires s.state == Running && s.hasCaptureSession && s.hasDevice && s.hasSurface
    ensures Step(s, StopRequested) == Effect(WithoutHandles(s).(state := Stopped), [], TeardownOrder, [], None)
  {
    assert Step(s, StopRequested) == StopInternal(s.(state := Stopped));
  }

  /**
   The whole life of a session, one callback after the other: start, open,
   configure, one frame, stop. The creator hears `OnDone` once, the frame is
   forwarded, and stop releases every handle in order without reporting anything.
   */
  lemma NormalLifecycle(sizes: seq<Size>, negotiated: CaptureFormat, jpegSizes: seq<Size>, displayRotation: int)
    requires |sizes| > 0
    ensures var started := Step(Initial, Started(Some(Capabilities(sizes, 1000)), negotiated, true));
      var devOpened := Step(started.session, DeviceOpened(jpegSizes, true));
      var configured := Step(devOpened.session, SessionConfigured(true));
      var frame := Step(configured.session, FrameArrived(displayRotation));
      var stop := Step(frame.session, StopRequested);
      && started.fault.None? && started.notes == [OnCameraOpening] && started.session.state == Running
      && devOpened.fault.None? && devOpened.notes == [] && devOpened.releases == []
      && configured.fault.None? && configured.notes == [OnDone] && |configured.issued| == 1
      && frame.fault.None? && frame.notes == [OnFrameCaptured(FrameOrientation(90, true, displayRotation), true, -90)]
      && stop.fault.None? && stop.notes == [] && stop.releases == TeardownOrder
      && stop.session.state == Stopped && Released(stop.session) && stop.session.firstFrameReported
  {
    LifecycleStart(sizes, negotiated);
    var s1 := StartedSession(sizes, negotiated);
    LifecycleOpen(s1, jpegSizes);
    var s2 := OpenedSession(s1, jpegSizes);
    LifecycleConfigured(s2);
    var s3 := ConfiguredSession(s2);
    LifecycleFrame(s3, displayRotation);
    var s4 := s3.(firstFrameReported := true);
    LifecycleStop(s4);
  }

  /**
   Switching the flash on a running session re-issues the request and reports
   `OnDone` again; the torch is set only when switching on, and switching off
   leaves the flash key unset.
   */
  lemma SwitchFlashReissues(s: Session)
    requires s.state == Running && s.hasDevice && s.hasCaptureSession
    requires s.format.Some? && s.chars.Some? && s.fpsUnitFactor != 0
    ensures var first := Step(s, FlashSwitched(FlashOptionOn, true));
      var second := Step(first.session, FlashSwitched(0, true));
      && first.fault.None? && first.notes == [OnDone] && |first.issued| == 1
      && first.issued[0].flashMode == Some(FlashModeTorch)
      && second.fault.None? && second.notes == [OnDone] && |second.issued| == 1
      && second.issued[0].flashMode == None
  {
    var first := SwitchFlash(s, FlashOptionOn, true);
    assert Step(s, FlashSwitched(FlashOptionOn, true)) == first;
    assert Step(first.session, FlashSwitched(0, true)) == SwitchFlash(first.session, 0, true);
  }

  /**
   Switching the flash to the mode it already has changes nothing: the same
   request is issued again and `OnDone` is reported again.
   */
  lemma SwitchFlashIsIdempotent(s: Session, flashMode: int)
    ensures var first := Step(s, FlashSwitched(flashMode, true));
      first.fault.None? ==> Step(first.session, FlashSwitched(flashMode, true)) == first
  {
    var first := SwitchFlash(s, flashMode, true);
    assert Step(s, FlashSwitched(flashMode, true)) == first;
    assert Step(first.session, FlashSwitched(flashMode, true)) == SwitchFlash(first.session, flashMode, true);
  }
}
