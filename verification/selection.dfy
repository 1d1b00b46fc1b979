/**
 The pure helpers of a Camera2 session: the rotation reported with each frame,
 the stabilization and focus modes picked from the device's capability lists,
 the repeating capture request, and the still-capture size picked from the
 JPEG output sizes.
 */
module Selection {
  import opened Optional
  import opened CameraTypes
  import JavaInt

  // ---------------------------------------------------------------------------
  // Frame orientation

  /**
   The rotation reported with a frame. The display rotation is subtracted from
   360 when the camera is NOT front-facing, and the sum is reduced with Java's
   truncating remainder.
   */
  function FrameOrientation(sensorOrientation: int, frontFacing: bool, displayRotation: int): (r: int)
    ensures -360 < r < 360
    ensures sensorOrientation + (if frontFacing then displayRotation else 360 - displayRotation) >= 0 ==> r >= 0
    ensures sensorOrientation + (if frontFacing then displayRotation else 360 - displayRotation) < 0 ==> r <= 0
    ensures (sensorOrientation + (if frontFacing then displayRotation else 360 - displayRotation) - r) % 360 == 0
  {
    var rotation := if !frontFacing then 360 - displayRotation else displayRotation;
    var r := JavaInt.Rem(sensorOrientation + rotation, 360);
    JavaInt.DivRemIdentity(sensorOrientation + rotation, 360);
    r
  }

  /**
   For a non-negative sensor orientation and a display rotation in [0, 360], the
   reported rotation is the Euclidean remainder of the adjusted sum, in [0, 360).
   */
  lemma FrameOrientationInRange(sensorOrientation: int, frontFacing: bool, displayRotation: int)
    requires sensorOrientation >= 0 && 0 <= displayRotation <= 360
    ensures var r := FrameOrientation(sensorOrientation, frontFacing, displayRotation);
      && r == (sensorOrientation + (if frontFacing then displayRotation else 360 - displayRotation)) % 360
      && 0 <= r < 360
  {
  }

  // ---------------------------------------------------------------------------
  // Stabilization and focus

  /** The scan of a capability list for one mode, in list order. */
  function ListsMode(modes: seq<int>, mode: int): (found: bool)
    ensures found <==> mode in modes
  {
    if |modes| == 0 then false
    else if modes[0] == mode then true
    else ListsMode(modes[1..], mode)
  }

  /** The two stabilization keys of a request; `None` leaves a key unset. */
  datatype Stabilization = Stabilization(optical: Option<int>, video: Option<int>)

  predicate OpticalOnListed(opticalModes: Option<seq<int>>)
  {
    opticalModes.Some? && OpticalStabilizationOn in opticalModes.value
  }

  /**
   Prefers optical stabilization; falls back to video stabilization; otherwise
   leaves both keys unset. Whichever is switched on, the other is set off.
   */
  function ChooseStabilization(opticalModes: Option<seq<int>>, videoModes: seq<int>): (st: Stabilization)
    ensures !(st.optical == Some(OpticalStabilizationOn) && st.video == Some(VideoStabilizationOn))
    ensures st.optical == Some(OpticalStabilizationOn) <==> OpticalOnListed(opticalModes)
    ensures st.video == Some(VideoStabilizationOn) <==> !OpticalOnListed(opticalModes) && VideoStabilizationOn in videoModes
    ensures st.optical == Some(OpticalStabilizationOn) ==> st.video == Some(VideoStabilizationOff)
    ensures st.video == Some(VideoStabilizationOn) ==> st.optical == Some(OpticalStabilizationOff)
    ensures st.optical.None? <==> st.video.None?
    ensures st.optical.None? <==> !OpticalOnListed(opticalModes) && VideoStabilizationOn !in videoModes
  {
    if opticalModes.Some? && ListsMode(opticalModes.value, OpticalStabilizationOn) then
      Stabilization(Some(OpticalStabilizationOn), Some(VideoStabilizationOff))
    else if ListsMode(videoModes, VideoStabilizationOn) then
      Stabilization(Some(OpticalStabilizationOff), Some(VideoStabilizationOn))
    else
      Stabilization(None, None)
  }

  /** Continuous-video autofocus when the device lists it; otherwise the key stays unset. */
  function ChooseFocus(focusModes: seq<int>): (af: Option<int>)
    ensures af.Some? <==> AfModeContinuousVideo in focusModes
    ensures af.Some? ==> af.value == AfModeContinuousVideo
  {
    if ListsMode(focusModes, AfModeContinuousVideo) then Some(AfModeContinuousVideo) else None
  }

  // ---------------------------------------------------------------------------
  // The repeating capture request

  datatype FpsRange = FpsRange(lower: int, upper: int)

  datatype CaptureRequest = CaptureRequest(
    template: int,
    aeTargetFpsRange: FpsRange,
    aeMode: int,
    aeLock: bool,
    flashMode: Option<int>,
    stabilization: Stabilization,
    afMode: Option<int>)

  /**
   The request for continuous capture: recording template, the capture format's
   frame-rate range divided by the unit factor, exposure on and unlocked, the
   torch only when the flash flag is on (otherwise the flash key is not set at
   all), and the stabilization and focus choices.
   */
  function BuildRequest(format: CaptureFormat, fpsUnitFactor: int, flashOn: bool, chars: Characteristics): (req: CaptureRequest)
    requires fpsUnitFactor != 0
    ensures req.template == TemplateRecord
    ensures req.aeTargetFpsRange.lower * fpsUnitFactor + JavaInt.Rem(format.framerate.min, fpsUnitFactor) == format.framerate.min
    ensures req.aeTargetFpsRange.upper * fpsUnitFactor + JavaInt.Rem(format.framerate.max, fpsUnitFactor) == format.framerate.max
    ensures req.aeMode == AeModeOn && !req.aeLock
    ensures req.flashMode.Some? <==> flashOn
    ensures req.flashMode.Some? ==> req.flashMode.value == FlashModeTorch
    ensures req.stabilization == ChooseStabilization(chars.opticalStabilizationModes, chars.videoStabilizationModes)
    ensures req.afMode == ChooseFocus(chars.focusModes)
  {
    JavaInt.DivRemIdentity(format.framerate.min, fpsUnitFactor);
    JavaInt.DivRemIdentity(format.framerate.max, fpsUnitFactor);
    CaptureRequest(
      TemplateRecord,
      FpsRange(JavaInt.Div(format.framerate.min, fpsUnitFactor), JavaInt.Div(format.framerate.max, fpsUnitFactor)),
      AeModeOn,
      false,
      if flashOn then Some(FlashModeTorch) else None,
      ChooseStabilization(chars.opticalStabilizationModes, chars.videoStabilizationModes),
      ChooseFocus(chars.focusModes))
  }

  /** With a positive unit factor and a non-negative range, each bound is rounded down. */
  lemma AeRangeRoundsDown(format: CaptureFormat, fpsUnitFactor: int, flashOn: bool, chars: Characteristics)
    requires fpsUnitFactor > 0 && 0 <= format.framerate.min && 0 <= format.framerate.max
    ensures var range := BuildRequest(format, fpsUnitFactor, flashOn, chars).aeTargetFpsRange;
      && range.lower * fpsUnitFactor <= format.framerate.min < (range.lower + 1) * fpsUnitFactor
      && range.upper * fpsUnitFactor <= format.framerate.max < (range.upper + 1) * fpsUnitFactor
  {
    var range := BuildRequest(format, fpsUnitFactor, flashOn, chars).aeTargetFpsRange;
    assert 0 <= JavaInt.Rem(format.framerate.min, fpsUnitFactor) < fpsUnitFactor;
    assert 0 <= JavaInt.Rem(format.framerate.max, fpsUnitFactor) < fpsUnitFactor;
    assert (range.lower + 1) * fpsUnitFactor == range.lower * fpsUnitFactor + fpsUnitFactor;
    assert (range.upper + 1) * fpsUnitFactor == range.upper * fpsUnitFactor + fpsUnitFactor;
  }

  // ---------------------------------------------------------------------------
  // The largest JPEG output size

  function Area(z: Size): int
  {
    z.width * z.height
  }

  ghost predicate DescendingByArea(s: seq<Size>)
  {
    forall i, j :: 0 <= i < j < |s| ==> Area(s[i]) >= Area(s[j])
  }

  /**
   One step of a stable sort under the comparator `area(b) - area(a)`: `x`, which
   came first in the input, goes in front of the first element whose area is not
   larger than its own.
   */
  function InsertByArea(x: Size, ys: seq<Size>): (r: seq<Size>)
    ensures multiset(r) == multiset(ys) + multiset{x}
    ensures |r| == |ys| + 1
    ensures r[0] == x || (|ys| > 0 && r[0] == ys[0])
  {
    if |ys| == 0 || Area(ys[0]) <= Area(x) then [x] + ys
    else
      assert ys == [ys[0]] + ys[1..];
      [ys[0]] + InsertByArea(x, ys[1..])
  }

  /** Putting `a` in front of a descending list whose head is not larger keeps it descending. */
  lemma DescendingCons(a: Size, t: seq<Size>)
    requires DescendingByArea(t)
    requires |t| > 0 ==> Area(t[0]) <= Area(a)
    ensures DescendingByArea([a] + t)
  {
  }

  /** Inserting into a descending list keeps it descending. */
  lemma {:induction false} InsertKeepsDescending(x: Size, ys: seq<Size>)
    requires DescendingByArea(ys)
    ensures DescendingByArea(InsertByArea(x, ys))
  {
    if |ys| == 0 || Area(ys[0]) <= Area(x) {
      DescendingCons(x, ys);
    } else {
      var tail := InsertByArea(x, ys[1..]);
      assert DescendingByArea(ys[1..]);
      InsertKeepsDescending(x, ys[1..]);
      DescendingCons(ys[0], tail);
    }
  }

  /** The stable descending sort by area applied to the JPEG output sizes. */
  function SortByAreaDescending(s: seq<Size>): (r: seq<Size>)
    ensures multiset(r) == multiset(s)
    ensures DescendingByArea(r)
  {
    if |s| == 0 then []
    else
      assert s == [s[0]] + s[1..];
      var rest := SortByAreaDescending(s[1..]);
      InsertKeepsDescending(s[0], rest);
      InsertByArea(s[0], rest)
  }

  /**
   The still-capture size: the head of the sorted list. An empty list makes the
   source's `get(0)` throw, which its catch turns into "no still output".
   */
  function LargestJpegSize(s: seq<Size>): (r: Option<Size>)
    ensures r.Some? <==> |s| > 0
    ensures r.Some? ==> r.value in s
    ensures r.Some? ==> forall i :: 0 <= i < |s| ==> Area(s[i]) <= Area(r.value)
  {
    if |s| == 0 then None
    else
      var sorted := SortByAreaDescending(s);
      assert sorted[0] in multiset(s);
      assert forall i :: 0 <= i < |s| ==> Area(s[i]) <= Area(sorted[0]) by {
        forall i | 0 <= i < |s|
          ensures Area(s[i]) <= Area(sorted[0])
        {
          assert s[i] in multiset(sorted);
          var m :| 0 <= m < |sorted| && sorted[m] == s[i];
        }
      }
      Some(sorted[0])
  }

  /** `k` is the first index of a largest-area size. */
  ghost predicate IsFirstLargest(s: seq<Size>, k: int)
  {
    && 0 <= k < |s|
    && (forall i :: 0 <= i < |s| ==> Area(s[i]) <= Area(s[k]))
    && (forall i :: 0 <= i < k ==> Area(s[i]) < Area(s[k]))
  }

  /** A single left-to-right scan for the first largest-area size. */
  method FirstLargestIndex(s: seq<Size>) returns (k: nat)
    requires |s| > 0
    ensures IsFirstLargest(s, k)
  {
    k := 0;
    var i := 1;
    while i < |s|
      invariant 1 <= i <= |s|
      invariant k < i
      invariant forall j :: 0 <= j < i ==> Area(s[j]) <= Area(s[k])
      invariant forall j :: 0 <= j < k ==> Area(s[j]) < Area(s[k])
    {
      if Area(s[i]) > Area(s[k]) {
        k := i;
      }
      i := i + 1;
    }
  }

  /**
   Because the sort is stable, the size the session picks is the FIRST size of
   largest area in the list the platform returned.
   */
  lemma {:induction false} LargestIsFirstLargest(s: seq<Size>, k: int)
    requires IsFirstLargest(s, k)
    ensures LargestJpegSize(s) == Some(s[k])
  {
    if k == 0 {
      HeadLargestStaysFirst(s);
    } else {
      FirstLargestOfTail(s, k);
      LargestIsFirstLargest(s[1..], k - 1);
      assert SortByAreaDescending(s[1..])[0] == s[k];
    }
  }

  /** A head whose area no later size exceeds stays in front. */
  lemma HeadLargestStaysFirst(s: seq<Size>)
    requires |s| > 0 && forall i :: 0 <= i < |s| ==> Area(s[i]) <= Area(s[0])
    ensures LargestJpegSize(s) == Some(s[0])
  {
    var rest := SortByAreaDescending(s[1..]);
    if |rest| > 0 {
      assert rest[0] in multiset(s[1..]);
      var m :| 0 <= m < |s[1..]| && s[1..][m] == rest[0];
      assert s[m + 1] == rest[0];
    }
  }

  /** The first largest size after the head is the first largest of the tail. */
  lemma FirstLargestOfTail(s: seq<Size>, k: int)
    requires IsFirstLargest(s, k) && k > 0
    ensures IsFirstLargest(s[1..], k - 1)
  {
    forall i | 0 <= i < |s[1..]|
      ensures Area(s[1..][i]) <= Area(s[1..][k - 1])
    {
      assert s[1..][i] == s[i + 1];
    }
    forall i | 0 <= i < k - 1
      ensures Area(s[1..][i]) < Area(s[1..][k - 1])
    {
      assert s[1..][i] == s[i + 1];
    }
  }

  /**
   The still size found by one left-to-right scan, with no sort: the same size
   the session picks from the sorted list, and none for an empty list.
   */
  method LargestJpegSizeByScan(s: seq<Size>) returns (r: Option<Size>)
    ensures r == LargestJpegSize(s)
    ensures r.Some? <==> |s| > 0
  {
    if |s| == 0 {
      return None;
    }
    var k := FirstLargestIndex(s);
    LargestIsFirstLargest(s, k);
    r := Some(s[k]);
  }
}
