/**
 * The pose-guided biometric capture of the employee registration screen
 * (ui/employee_ui.py): a camera loop that classifies each frame's head pose, counts
 * consecutive frames in the pose the current state asks for, and on the ninth takes one
 * encoding sample, until three FRONT, one LEFT and one RIGHT sample are held.
 */
module EmployeeUi {
  import opened Wrappers
  import FaceService

  datatype CaptureState = Idle | Front | Left | Right | Done

  /** A snap is taken when the stability counter exceeds this, i.e. on the ninth matching frame. */
  const StabilityThreshold: nat := 8

  /** Samples in a complete capture. */
  const SamplesNeeded: nat := 5

  /** The pose under which each sample is taken, in order: three FRONT, one LEFT, one RIGHT. */
  const PosePlan: seq<FaceService.Pose> :=
    [FaceService.Front, FaceService.Front, FaceService.Front, FaceService.Left, FaceService.Right]

  /** Position in the fixed order IDLE, FRONT, LEFT, RIGHT, DONE. */
  function Rank(s: CaptureState): nat
  {
    match s
    case Idle => 0
    case Front => 1
    case Left => 2
    case Right => 3
    case Done => 4
  }

  /** The pose a state waits for; IDLE and DONE keep the initial target, FRONT. */
  function TargetPose(s: CaptureState): FaceService.Pose
  {
    match s
    case Left => FaceService.Left
    case Right => FaceService.Right
    case _ => FaceService.Front
  }

  /** The state that belongs to a sample count: FRONT below 3, then LEFT, RIGHT and DONE. */
  function StageOf(count: nat): (s: CaptureState)
    requires count <= SamplesNeeded
    ensures s != Idle
    ensures s == Done <==> count == SamplesNeeded
    ensures count < SamplesNeeded ==> TargetPose(s) == PosePlan[count]
  {
    if count < 3 then Front else if count == 3 then Left else if count == 4 then Right else Done
  }

  /** The state `_capture_snap` sets once the sample count is `count`; a count above 5 leaves `current`. */
  function StateAfterSample(count: nat, current: CaptureState): CaptureState
  {
    if count <= SamplesNeeded then StageOf(count) else current
  }

  /** The sample count never moves the state backwards. */
  lemma StageOfMonotone(m: nat, n: nat)
    requires m <= n <= SamplesNeeded
    ensures Rank(StageOf(m)) <= Rank(StageOf(n))
  {
  }

  /** The progress bar value: `count / 5 * 100`. */
  function Progress(count: nat): real
  {
    (count as real / SamplesNeeded as real) * 100.0
  }

  // ---------------------------------------------------------------- one frame, as a value

  /** The capture fields: state, stability counter and the samples taken so far. */
  datatype Capture<E> = Capture(state: CaptureState, counter: nat, samples: seq<E>)

  /** What the capture logic learns from one frame. */
  datatype Observation =
    | NoFace                          // the landmark detector found no face
    | Unclassifiable                  // the pose classifier raised
    | Seen(pose: FaceService.Pose)    // the pose of the first face

  /** A capture that is running: its state is the one its sample count calls for, short of DONE. */
  predicate Active<E>(c: Capture<E>)
  {
    && |c.samples| < SamplesNeeded
    && c.state == StageOf(|c.samples|)
    && c.counter <= StabilityThreshold
  }

  /** A capture in a state its sample count allows, DONE included. */
  predicate WellFormed<E>(c: Capture<E>)
  {
    && |c.samples| <= SamplesNeeded
    && c.state == StageOf(|c.samples|)
    && c.counter <= StabilityThreshold
  }

  /**
   * One frame through `process_auto_capture` and `_capture_snap`; `snap` is what the encoder
   * returns for the frame. A frame without a face changes nothing (the counter is kept); a
   * pose other than the target resets the counter; a matching pose counts, and the ninth in a
   * row appends the first encoding, if any, and resets the counter either way.
   */
  function CaptureStep<E>(c: Capture<E>, obs: Observation, snap: seq<E>): (r: Capture<E>)
    ensures obs == NoFace || obs == Unclassifiable ==> r == c
    ensures obs.Seen? && obs.pose != TargetPose(c.state) ==> r == c.(counter := 0)
    ensures obs.Seen? && obs.pose == TargetPose(c.state) && c.counter < StabilityThreshold ==>
              r == c.(counter := c.counter + 1)
    ensures obs.Seen? && obs.pose == TargetPose(c.state) && c.counter >= StabilityThreshold ==>
              r.counter == 0 && (snap == [] <==> r.samples == c.samples)
    ensures r.samples == c.samples || (snap != [] && r.samples == c.samples + [snap[0]])
    ensures Active(c) ==> WellFormed(r) && Rank(c.state) <= Rank(r.state)
    ensures Active(c) && |r.samples| > |c.samples| ==> obs == Seen(PosePlan[|c.samples|])
  {
    match obs
    case NoFace => c
    case Unclassifiable => c
    case Seen(pose) =>
      if pose != TargetPose(c.state) then c.(counter := 0)
      else if c.counter + 1 <= StabilityThreshold then c.(counter := c.counter + 1)
      else if snap == [] then c.(counter := 0)
      else
        var samples := c.samples + [snap[0]];
        Capture(StateAfterSample(|samples|, c.state), 0, samples)
  }

  /** A frame as the capture logic sees it. */
  datatype Frame<E> = Frame(obs: Observation, snap: seq<E>)

  /** Frames processed one after another. */
  function Run<E>(c: Capture<E>, frames: seq<Frame<E>>): Capture<E>
    decreases |frames|
  {
    if frames == [] then c else Run(CaptureStep(c, frames[0].obs, frames[0].snap), frames[1..])
  }

  function Repeat<E>(f: Frame<E>, k: nat): (r: seq<Frame<E>>)
    ensures |r| == k && forall i :: 0 <= i < k ==> r[i] == f
  {
    seq(k, _ => f)
  }

  lemma {:induction false} RunAppend<E>(c: Capture<E>, a: seq<Frame<E>>, b: seq<Frame<E>>)
    ensures Run(c, a + b) == Run(Run(c, a), b)
    decreases |a|
  {
    if a == [] {
      assert a + b == b;
    } else {
      assert (a + b)[0] == a[0];
      assert (a + b)[1..] == a[1..] + b;
      RunAppend(CaptureStep(c, a[0].obs, a[0].snap), a[1..], b);
    }
  }

  /** Up to eight frames in the target pose only count; no sample is taken. */
  lemma {:induction false} MatchingFramesCount<E>(c: Capture<E>, k: nat, snap: seq<E>)
    requires c.counter + k <= StabilityThreshold
    ensures Run(c, Repeat(Frame(Seen(TargetPose(c.state)), snap), k)) == c.(counter := c.counter + k)
    decreases k
  {
    if k > 0 {
      var f := Frame(Seen(TargetPose(c.state)), snap);
      var next := c.(counter := c.counter + 1);
      assert Repeat(f, k)[1..] == Repeat(f, k - 1);
      MatchingFramesCount(next, k - 1, snap);
    }
  }

  /** From a zero counter, nine frames in the target pose take exactly one sample. */
  lemma NineMatchingFramesSnap<E>(c: Capture<E>, e: E)
    requires Active(c) && c.counter == 0
    ensures var r := Run(c, Repeat(Frame(Seen(TargetPose(c.state)), [e]), StabilityThreshold + 1));
      && r.samples == c.samples + [e]
      && r.counter == 0
      && r.state == StageOf(|c.samples| + 1)
  {
    var f := Frame(Seen(TargetPose(c.state)), [e]);
    assert Repeat(f, StabilityThreshold + 1) == Repeat(f, StabilityThreshold) + [f];
    RunAppend(c, Repeat(f, StabilityThreshold), [f]);
    MatchingFramesCount(c, StabilityThreshold, [e]);
  }

  /** Nine frames in the given pose, each encoding to `e`. */
  function Hold<E>(pose: FaceService.Pose, e: E): seq<Frame<E>>
  {
    Repeat(Frame(Seen(pose), [e]), StabilityThreshold + 1)
  }

  /** One sample taken in the state `StageOf(n)`. */
  lemma {:induction false} HoldTakesSample<E>(n: nat, samples: seq<E>, e: E)
    requires n == |samples| < SamplesNeeded
    ensures Run(Capture(StageOf(n), 0, samples), Hold(PosePlan[n], e)) == Capture(StageOf(n + 1), 0, samples + [e])
  {
    NineMatchingFramesSnap(Capture(StageOf(n), 0, samples), e);
  }

  /** The poses still to hold once `n` samples are taken, nine frames each, in plan order. */
  function HoldPlan<E>(n: nat, e: E): seq<Frame<E>>
    decreases SamplesNeeded - n
  {
    if n >= SamplesNeeded then [] else Hold(PosePlan[n], e) + HoldPlan(n + 1, e)
  }

  /** Holding every pose still planned, from a zero counter, takes the remaining samples and ends in DONE. */
  lemma {:induction false} RunHoldPlan<E>(samples: seq<E>, e: E)
    requires |samples| <= SamplesNeeded
    ensures Run(Capture(StageOf(|samples|), 0, samples), HoldPlan(|samples|, e))
         == Capture(Done, 0, samples + seq(SamplesNeeded - |samples|, _ => e))
    decreases SamplesNeeded - |samples|
  {
    var n := |samples|;
    if n == SamplesNeeded {
      assert samples + seq(0, _ => e) == samples;
    } else {
      var c := Capture(StageOf(n), 0, samples);
      RunAppend(c, Hold(PosePlan[n], e), HoldPlan(n + 1, e));
      HoldTakesSample(n, samples, e);
      RunHoldPlan(samples + [e], e);
      assert samples + [e] + seq(SamplesNeeded - n - 1, _ => e) == samples + seq(SamplesNeeded - n, _ => e);
    }
  }

  /**
   * A whole enrollment: 27 FRONT frames, 9 LEFT and 9 RIGHT, every one yielding an encoding,
   * take the five samples and end in DONE.
   */
  lemma CompleteCapture<E>(e: E)
    ensures Run(Capture(Front, 0, []),
                Hold(FaceService.Front, e) + Hold(FaceService.Front, e) + Hold(FaceService.Front, e)
                + Hold(FaceService.Left, e) + Hold(FaceService.Right, e))
         == Capture(Done, 0, [e, e, e, e, e])
  {
    var f := Hold(FaceService.Front, e);
    var l := Hold(FaceService.Left, e);
    var r := Hold(FaceService.Right, e);
    assert PosePlan[0] == PosePlan[1] == PosePlan[2] == FaceService.Front;
    assert PosePlan[3] == FaceService.Left && PosePlan[4] == FaceService.Right;
    assert HoldPlan(4, e) == r + [];
    assert HoldPlan(0, e) == f + (f + (f + (l + (r + []))));
    assert f + (f + (f + (l + (r + [])))) == f + f + f + l + r;
    RunHoldPlan([], e);
    assert [] + seq(SamplesNeeded, _ => e) == [e, e, e, e, e];
  }

  // ---------------------------------------------------------------- the screen

  /** The fields `save_employee` hands to the employee model. */
  datatype NewEmployee<E> = NewEmployee(code: string, name: string, encodings: seq<E>)

  /** What the face library reports for a frame, as the capture logic classifies it. */
  function Observe<F, E>(lib: FaceService.FaceLibrary<F, E>, small: F): Observation
  {
    var lms := lib.landmarks(small);
    if lms == [] then NoFace
    else
      match FaceService.DetectHeadPose(lms[0])
      case None => Unclassifiable
      case Some(p) => Seen(p)
  }

  /** `get_face_encodings`: the encodings of every face the library finds in the frame. */
  function SnapEncodings<F, E>(lib: FaceService.FaceLibrary<F, E>, small: F): seq<E>
  {
    lib.encode(small, lib.locate(small))
  }

  /** The half-size frame that landmarks and encodings are taken from. */
  const CaptureScale: real := 0.5

  class EmployeeFrame<E> {
    var isCameraOn: bool
    var captureState: CaptureState
    var stabilityCounter: nat
    var capturedEncodings: seq<E>
    var progress: real

    function Snapshot(): Capture<E>
      reads this
    {
      Capture(captureState, stabilityCounter, capturedEncodings)
    }

    /** The state is the one the sample count calls for (or IDLE before any start), and the bar shows the count. */
    ghost predicate Consistent()
      reads this
    {
      && |capturedEncodings| <= SamplesNeeded
      && (captureState == Idle ==> capturedEncodings == [])
      && (captureState != Idle ==> captureState == StageOf(|capturedEncodings|))
      && progress == Progress(|capturedEncodings|)
    }

    /** Between frames: also the counter is below the snap threshold and a running camera is mid-capture. */
    ghost predicate Valid()
      reads this
    {
      && Consistent()
      && stabilityCounter <= StabilityThreshold
      && (isCameraOn ==> Active(Snapshot()))
    }

    constructor ()
      ensures Valid()
      ensures !isCameraOn && Snapshot() == Capture(Idle, 0, [])
    {
      isCameraOn := false;
      captureState := Idle;
      stabilityCounter := 0;
      capturedEncodings := [];
      progress := 0.0;
    }

    /**
     * `toggle_camera`: starting (when the device opens) clears the samples and enters FRONT,
     * keeping the stability counter; the caller then runs the first `UpdateFrame`. When the
     * camera is on it is stopped and the capture kept.
     */
    method ToggleCamera(cameraOpened: bool) returns (started: bool)
      requires Valid()
      modifies this
      ensures Valid()
      ensures started == (!old(isCameraOn) && cameraOpened)
      ensures started ==> isCameraOn && Snapshot() == Capture(Front, old(stabilityCounter), [])
      ensures old(isCameraOn) ==> !isCameraOn && Snapshot() == old(Snapshot())
      ensures !old(isCameraOn) && !cameraOpened ==> !isCameraOn && Snapshot() == old(Snapshot())
    {
      started := false;
      if !isCameraOn {
        if cameraOpened {
          isCameraOn := true;
          capturedEncodings := [];
          captureState := Front;
          progress := 0.0;
          started := true;
        }
      } else {
        StopCamera();
      }
    }

    /** `stop_camera` */
    method StopCamera()
      requires Consistent()
      modifies this`isCameraOn
      ensures !isCameraOn
    {
      isCameraOn := false;
    }

    /**
     * `update_frame`: with the camera on and a frame read, runs the capture step on the
     * half-size frame; the loop is scheduled again only while the state is not DONE. Reaching
     * DONE, or the classifier raising, stops the camera. A failed read leaves everything as
     * it is and does not schedule the loop again.
     */
    method UpdateFrame<F>(lib: FaceService.FaceLibrary<F, E>, read: Option<F>) returns (rescheduled: bool)
      requires Valid()
      modifies this
      ensures Valid()
      ensures !old(isCameraOn) || read.None? ==> !rescheduled && unchanged(this)
      ensures old(isCameraOn) && read.Some? ==>
        var small := lib.resize(read.value, CaptureScale);
        && Snapshot() == CaptureStep(old(Snapshot()), Observe(lib, small), SnapEncodings(lib, small))
        && rescheduled == isCameraOn
        && (rescheduled <==> Observe(lib, small) != Unclassifiable && captureState != Done)
    {
      if !isCameraOn {
        return false;
      }
      if read.None? {
        return false;
      }
      var small := lib.resize(read.value, CaptureScale);
      var raised := ProcessAutoCapture(Observe(lib, small), SnapEncodings(lib, small));
      if raised {
        StopCamera();
        return false;
      }
      if captureState != Done {
        rescheduled := true;
      } else {
        StopCamera();
        rescheduled := false;
      }
    }

    /**
     * `process_auto_capture` on one frame's observation; `raised` reports the classifier
     * raising, which leaves every field as it was.
     */
    method ProcessAutoCapture(obs: Observation, snap: seq<E>) returns (raised: bool)
      requires Valid() && isCameraOn
      modifies this
      ensures Consistent() && stabilityCounter <= StabilityThreshold && isCameraOn
      ensures raised == (obs == Unclassifiable)
      ensures Snapshot() == CaptureStep(old(Snapshot()), obs, snap)
    {
      var target := TargetPose(captureState);
      match obs {
        case NoFace =>
          return false;
        case Unclassifiable =>
          return true;
        case Seen(pose) =>
          raised := false;
          if pose == target {
            stabilityCounter := stabilityCounter + 1;
            if stabilityCounter > StabilityThreshold {
              CaptureSnap(snap);
              stabilityCounter := 0;
            }
          } else {
            stabilityCounter := 0;
          }
      }
    }

    /**
     * `_capture_snap`: with an encoding, appends the first one, updates the progress bar and
     * moves to the state the new count calls for; without one, changes nothing.
     */
    method CaptureSnap(encodings: seq<E>)
      requires Consistent() && isCameraOn && Active(Snapshot().(counter := 0))
      modifies this`capturedEncodings, this`captureState, this`progress
      ensures Consistent()
      ensures encodings == [] ==> capturedEncodings == old(capturedEncodings) && captureState == old(captureState)
      ensures encodings != [] ==>
        && capturedEncodings == old(capturedEncodings) + [encodings[0]]
        && captureState == StateAfterSample(|capturedEncodings|, old(captureState))
        && progress == Progress(|capturedEncodings|)
    {
      if encodings == [] {
        return;
      }
      capturedEncodings := capturedEncodings + [encodings[0]];
      var count := |capturedEncodings|;
      progress := Progress(count);
      if count < 3 {
        captureState := Front;
      } else if count == 3 {
        captureState := Left;
      } else if count == 4 {
        captureState := Right;
      } else if count == 5 {
        captureState := Done;
      }
    }

    /**
     * `save_employee`'s check: with the code or the name empty nothing is sent to the model;
     * otherwise the model receives them with the captured encodings.
     */
    function SaveRequest(code: string, name: string): (r: Option<NewEmployee<E>>)
      reads this
      ensures r.None? <==> code == [] || name == []
      ensures r.Some? ==> r.value == NewEmployee(code, name, capturedEncodings)
    {
      if code == [] || name == [] then None else Some(NewEmployee(code, name, capturedEncodings))
    }
  }
}
