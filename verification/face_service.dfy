/**
 * Head-pose classification and per-face identity selection (services/face_service.py).
 *
 * The face library and image operations (detection, landmarks, encodings, encoding
 * distance, resizing) are opaque; they are passed in as a `FaceLibrary` record of
 * functions over a frame type `F` and an encoding type `E`.
 */
module FaceService {
  import opened Wrappers

  // ---------------------------------------------------------------- head pose

  datatype Pose = Front | Left | Right

  datatype Point = Point(x: real, y: real)

  /** The three landmark groups the classifier reads (the library reports more). */
  datatype Landmarks = Landmarks(leftEye: seq<Point>, rightEye: seq<Point>, noseTip: seq<Point>)

  /** The open interval of ratios classified as FRONT. */
  const FrontLow: real := 0.6
  const FrontHigh: real := 1.4

  /** Added to the right-hand distance before dividing. */
  const Epsilon: real := 0.000001

  function SumX(pts: seq<Point>): real
  {
    if pts == [] then 0.0 else SumX(pts[..|pts| - 1]) + pts[|pts| - 1].x
  }

  /**
   * `np.mean(points, axis=0)[0]` for a group with points: the x coordinate of the centroid.
   * For an empty group numpy's mean is a bare scalar, and indexing it raises `IndexError`.
   */
  function CentroidX(pts: seq<Point>): real
    requires pts != []
  {
    SumX(pts) / (|pts| as real)
  }

  /** All three groups have points, so no centroid lookup raises. */
  predicate HasGroups(lm: Landmarks)
  {
    lm.leftEye != [] && lm.rightEye != [] && lm.noseTip != []
  }

  /** `nose_tip.x - left_eye.x` */
  function DistLeft(lm: Landmarks): real
    requires HasGroups(lm)
  {
    CentroidX(lm.noseTip) - CentroidX(lm.leftEye)
  }

  /** `right_eye.x - nose_tip.x` */
  function DistRight(lm: Landmarks): real
    requires HasGroups(lm)
  {
    CentroidX(lm.rightEye) - CentroidX(lm.noseTip)
  }

  /**
   * `dist_left / (dist_right + 1e-6)`, or None where the source raises: `IndexError` for an
   * empty landmark group, `ZeroDivisionError` for a zero divisor.
   */
  function HeadRatio(lm: Landmarks): Option<real>
  {
    if !HasGroups(lm) then None
    else if DistRight(lm) + Epsilon == 0.0 then None
    else Some(DistLeft(lm) / (DistRight(lm) + Epsilon))
  }

  /**
   * The three-way threshold test: FRONT strictly inside (0.6, 1.4), LEFT at or below 0.6,
   * RIGHT from 1.4 up.
   */
  function PoseOfRatio(ratio: real): (p: Pose)
    ensures p == Front <==> FrontLow < ratio < FrontHigh
    ensures p == Left <==> ratio <= FrontLow
    ensures p == Right <==> FrontHigh <= ratio
  {
    if FrontLow < ratio < FrontHigh then Front
    else if ratio <= FrontLow then Left
    else Right
  }

  /**
   * `detect_head_pose`: one of the three labels for every landmark input, except where the
   * source raises, which is exactly when a landmark group is empty or the nose lies 1e-6 to
   * the right of the right-eye centroid.
   */
  function DetectHeadPose(lm: Landmarks): (p: Option<Pose>)
    ensures p.None? <==>
      || lm.leftEye == [] || lm.rightEye == [] || lm.noseTip == []
      || CentroidX(lm.rightEye) - CentroidX(lm.noseTip) == -Epsilon
    ensures p.Some? ==>
      && (p.value == Front <==> FrontLow < DistLeft(lm) / (DistRight(lm) + Epsilon) < FrontHigh)
      && (p.value == Left <==> DistLeft(lm) / (DistRight(lm) + Epsilon) <= FrontLow)
  {
    match HeadRatio(lm)
    case None => None
    case Some(q) => Some(PoseOfRatio(q))
  }

  /** The same landmarks moved `dx` to the right. */
  function ShiftPoints(pts: seq<Point>, dx: real): (r: seq<Point>)
    ensures |r| == |pts|
  {
    seq(|pts|, k requires 0 <= k < |pts| => Point(pts[k].x + dx, pts[k].y))
  }

  function ShiftLandmarks(lm: Landmarks, dx: real): Landmarks
  {
    Landmarks(ShiftPoints(lm.leftEye, dx), ShiftPoints(lm.rightEye, dx), ShiftPoints(lm.noseTip, dx))
  }

  lemma {:induction false} SumXShift(pts: seq<Point>, dx: real)
    ensures SumX(ShiftPoints(pts, dx)) == SumX(pts) + (|pts| as real) * dx
  {
    if pts != [] {
      var n := |pts|;
      assert ShiftPoints(pts, dx)[..n - 1] == ShiftPoints(pts[..n - 1], dx);
      SumXShift(pts[..n - 1], dx);
    }
  }

  /** Moving every point by `dx` moves the centroid by `dx`. */
  lemma CentroidShift(pts: seq<Point>, dx: real)
    requires pts != []
    ensures CentroidX(ShiftPoints(pts, dx)) == CentroidX(pts) + dx
  {
    SumXShift(pts, dx);
    var n := |pts| as real;
    DivideSum(SumX(pts), n, dx);
  }

  lemma DivideSum(a: real, n: real, dx: real)
    requires n > 0.0
    ensures (a + n * dx) / n == a / n + dx
  {
    assert (a / n + dx) * n == a + n * dx;
  }

  /** The pose depends only on where the nose sits between the eyes, not on where the face is in the frame. */
  lemma PoseTranslationInvariant(lm: Landmarks, dx: real)
    ensures DetectHeadPose(ShiftLandmarks(lm, dx)) == DetectHeadPose(lm)
  {
    var sh := ShiftLandmarks(lm, dx);
    assert HasGroups(sh) == HasGroups(lm);
    if HasGroups(lm) {
      CentroidShift(lm.leftEye, dx);
      CentroidShift(lm.rightEye, dx);
      CentroidShift(lm.noseTip, dx);
      assert DistLeft(sh) == DistLeft(lm);
      assert DistRight(sh) == DistRight(lm);
    }
  }

  /** A face whose nose sits midway between eye centroids at least 1e-5 apart from it is FRONT. */
  lemma SymmetricFaceIsFront(lm: Landmarks, d: real)
    requires HasGroups(lm)
    requires DistLeft(lm) == d && DistRight(lm) == d
    requires d >= 0.00001
    ensures DetectHeadPose(lm) == Some(Front)
  {
    var q := d / (d + Epsilon);
    assert q * (d + Epsilon) == d;
    assert FrontLow < q by {
      assert FrontLow * (d + Epsilon) < d;
    }
    assert q < 1.0;
  }

  // ---------------------------------------------------------------- recognition

  type EmpCode = string

  /** A face location `(top, right, bottom, left)` as the detector reports it. */
  datatype Box = Box(top: int, right: int, bottom: int, left: int)

  /** One entry of the result list: where the face is and whose it is (None: unknown). */
  datatype Recognition = Recognition(location: Box, code: Option<EmpCode>)

  /**
   * The library calls the core makes, as opaque functions: `frame.size`, `cv2.resize` by a
   * factor, `face_locations`, `face_encodings` for given locations, `face_landmarks`, and
   * `face_distance` between a gallery encoding and a probe. Colour conversion is folded into
   * `locate`, `encode` and `landmarks`.
   */
  datatype FaceLibrary<!F, !E> = FaceLibrary(
    size: F -> nat,
    resize: (F, real) -> F,
    locate: F -> seq<Box>,
    encode: (F, seq<Box>) -> seq<E>,
    landmarks: F -> seq<Landmarks>,
    distance: (E, E) -> real)

  /** `compare_faces`: a gallery entry matches a probe when its distance is within the tolerance. */
  predicate Matches<E>(distance: (E, E) -> real, known: E, probe: E, tolerance: real)
  {
    distance(known, probe) <= tolerance
  }

  /** `matches.index(True)`: the smallest gallery index that matches, None if none does. */
  function FirstMatchIndex<E>(known: seq<E>, probe: E, distance: (E, E) -> real, tolerance: real): (r: Option<nat>)
    ensures r.Some? ==> r.value < |known| && Matches(distance, known[r.value], probe, tolerance)
    ensures r.Some? ==> forall j :: 0 <= j < r.value ==> !Matches(distance, known[j], probe, tolerance)
    ensures r.None? ==> forall j :: 0 <= j < |known| ==> !Matches(distance, known[j], probe, tolerance)
  {
    if known == [] then None
    else if Matches(distance, known[0], probe, tolerance) then Some(0)
    else
      match FirstMatchIndex(known[1..], probe, distance, tolerance)
      case None => None
      case Some(i) => Some(i + 1)
  }

  /** The identity given to one encoding: the code stored at the first matching gallery index. */
  function Identify<E>(known: seq<E>, knownIds: seq<EmpCode>, probe: E, distance: (E, E) -> real, tolerance: real): Option<EmpCode>
    requires |knownIds| == |known|
  {
    match FirstMatchIndex(known, probe, distance, tolerance)
    case None => None
    case Some(i) => Some(knownIds[i])
  }

  /**
   * First match, not nearest match: when entry `i` matches and no earlier entry does, the
   * probe gets `knownIds[i]` even if a later entry is strictly closer.
   */
  lemma FirstMatchBeatsCloserLater<E>(known: seq<E>, knownIds: seq<EmpCode>, probe: E, distance: (E, E) -> real,
                                      tolerance: real, i: nat, j: nat)
    requires |knownIds| == |known| && i < j < |known|
    requires Matches(distance, known[i], probe, tolerance)
    requires forall k :: 0 <= k < i ==> !Matches(distance, known[k], probe, tolerance)
    requires distance(known[j], probe) < distance(known[i], probe)
    ensures Identify(known, knownIds, probe, distance, tolerance) == Some(knownIds[i])
  {
  }

  /** Enrolling more samples after a matching entry never changes who a probe is taken for. */
  lemma {:induction false} IdentifyStableUnderAppend<E>(known: seq<E>, knownIds: seq<EmpCode>, more: seq<E>,
                                                         moreIds: seq<EmpCode>, probe: E, distance: (E, E) -> real,
                                                         tolerance: real)
    requires |knownIds| == |known| && |moreIds| == |more|
    requires Identify(known, knownIds, probe, distance, tolerance).Some?
    ensures Identify(known + more, knownIds + moreIds, probe, distance, tolerance)
         == Identify(known, knownIds, probe, distance, tolerance)
  {
    var i := FirstMatchIndex(known, probe, distance, tolerance).value;
    var r := FirstMatchIndex(known + more, probe, distance, tolerance);
    assert (known + more)[i] == known[i];
    assert r.Some?;
    assert r.value == i;
    assert (knownIds + moreIds)[i] == knownIds[i];
  }

  function Min(a: nat, b: nat): nat
  {
    if a <= b then a else b
  }

  /** The frame the detector sees: resized only when the scale differs from 1 and is positive. */
  function Rescaled<F, E>(lib: FaceLibrary<F, E>, frame: F, scale: real): F
  {
    if scale != 1.0 && scale > 0.0 then lib.resize(frame, scale) else frame
  }

  /** The result list `process_face_recognition` builds, as a value. */
  function Recognitions<F, E>(lib: FaceLibrary<F, E>, frame: Option<F>, known: seq<E>, knownIds: seq<EmpCode>,
                              scale: real, tolerance: real): seq<Recognition>
    requires |knownIds| == |known|
  {
    if frame.None? || lib.size(frame.value) == 0 then []
    else
      var img := Rescaled(lib, frame.value, scale);
      var locs := lib.locate(img);
      var encs := lib.encode(img, locs);
      seq(Min(|locs|, |encs|), k requires 0 <= k < Min(|locs|, |encs|) =>
        Recognition(locs[k], Identify(known, knownIds, encs[k], lib.distance, tolerance)))
  }

  /**
   * `process_face_recognition`: no frame, an empty frame, or no located face gives no
   * result; otherwise one result per located face (zipped with the encodings), in detection
   * order, carrying that face's location unchanged and the code of the first gallery entry
   * within the tolerance of its encoding.
   */
  method ProcessFaceRecognition<F, E>(lib: FaceLibrary<F, E>, frame: Option<F>, known: seq<E>, knownIds: seq<EmpCode>,
                                      scale: real, tolerance: real)
    returns (results: seq<Recognition>)
    requires |knownIds| == |known|
    ensures frame.None? || lib.size(frame.value) == 0 ==> results == []
    ensures frame.Some? && lib.size(frame.value) > 0 ==>
      var img := Rescaled(lib, frame.value, scale);
      var locs := lib.locate(img);
      var encs := lib.encode(img, locs);
      && |results| == Min(|locs|, |encs|)
      && forall k :: 0 <= k < |results| ==>
           && results[k].location == locs[k]
           && results[k].code == Identify(known, knownIds, encs[k], lib.distance, tolerance)
    ensures results == Recognitions(lib, frame, known, knownIds, scale, tolerance)
  {
    if frame.None? || lib.size(frame.value) == 0 {
      return [];
    }
    var img := Rescaled(lib, frame.value, scale);
    var locs := lib.locate(img);
    if locs == [] {
      return [];
    }
    var encs := lib.encode(img, locs);
    results := [];
    for k := 0 to Min(|locs|, |encs|)
      invariant |results| == k
      invariant forall j :: 0 <= j < k ==>
        && results[j].location == locs[j]
        && results[j].code == Identify(known, knownIds, encs[j], lib.distance, tolerance)
    {
      var firstMatch := FirstMatchIndex(known, encs[k], lib.distance, tolerance);
      var code: Option<EmpCode> := None;
      if firstMatch.Some? {
        code := Some(knownIds[firstMatch.value]);
      }
      results := results + [Recognition(locs[k], code)];
    }
  }
}
