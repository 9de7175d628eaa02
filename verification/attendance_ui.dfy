/**
 * The live attendance screen (ui/attendance_ui.py): a camera loop that recognises faces on
 * every other frame, marks each recognised employee once, keeps an in-memory set of the
 * employees marked today, counts unknown faces and offers a manual check-in once more than
 * thirty have been seen in a row.
 */
module AttendanceUi {
  import opened Wrappers
  import opened Text
  import FaceService
  import AttendanceService

  type EmpCode = FaceService.EmpCode

  // ---------------------------------------------------------------- overlay colours

  const Red: string := "#e74c3c"
  const Blue: string := "#3498db"
  const Green: string := "#2ecc71"

  /** The unknown-face count above which the manual check-in is offered. */
  const ManualThreshold: nat := 30

  predicate IsHexDigit(c: char)
  {
    '0' <= c <= '9' || 'a' <= c <= 'f' || 'A' <= c <= 'F'
  }

  function HexValue(c: char): (v: nat)
    requires IsHexDigit(c)
    ensures v < 16
  {
    if '0' <= c <= '9' then c as int - '0' as int
    else if 'a' <= c <= 'f' then c as int - 'a' as int + 10
    else c as int - 'A' as int + 10
  }

  /** The lower-case hexadecimal digit of a value below 16. */
  function HexDigit(v: nat): (c: char)
    requires v < 16
    ensures IsHexDigit(c) && HexValue(c) == v
  {
    if v < 10 then ('0' as int + v) as char else ('a' as int + v - 10) as char
  }

  /** `s.lstrip("#")`: `s` without its leading `#` characters. */
  function LstripHash(s: string): (r: string)
    ensures |r| <= |s| && r == s[|s| - |r|..]
    ensures forall k :: 0 <= k < |s| - |r| ==> s[k] == '#'
    ensures r == [] || r[0] != '#'
  {
    if s != [] && s[0] == '#' then LstripHash(s[1..]) else s
  }

  /** A colour whose text after the leading `#`s starts with six hexadecimal digits. */
  predicate HexColour(colour: string)
  {
    var t := LstripHash(colour);
    |t| >= 6 && forall k :: 0 <= k < 6 ==> IsHexDigit(t[k])
  }

  /** The value of the two hexadecimal digits at `t[i..i + 2]`. */
  function HexPair(t: string, i: nat): (v: nat)
    requires i + 2 <= |t| && IsHexDigit(t[i]) && IsHexDigit(t[i + 1])
    ensures v < 256
  {
    HexValue(t[i]) * 16 + HexValue(t[i + 1])
  }

  /** An OpenCV colour: blue, green, red. */
  datatype Bgr = Bgr(b: nat, g: nat, r: nat)

  predicate ValidBgr(c: Bgr)
  {
    c.b < 256 && c.g < 256 && c.r < 256
  }

  /**
   * The conversion at ui/attendance_ui.py:173: the pairs at offsets 4, 2 and 0 of the
   * colour after its leading `#`s, read in base 16, give blue, green and red.
   */
  function HexToBgr(colour: string): (c: Bgr)
    requires HexColour(colour)
    ensures ValidBgr(c)
  {
    var t := LstripHash(colour);
    Bgr(HexPair(t, 4), HexPair(t, 2), HexPair(t, 0))
  }

  /** Two lower-case hexadecimal digits for a value below 256. */
  function HexByte(v: nat): (s: string)
    requires v < 256
    ensures |s| == 2 && IsHexDigit(s[0]) && IsHexDigit(s[1]) && HexValue(s[0]) * 16 + HexValue(s[1]) == v
  {
    [HexDigit(v / 16), HexDigit(v % 16)]
  }

  /** `#rrggbb` for a colour. */
  function ToHex(c: Bgr): string
    requires ValidBgr(c)
  {
    "#" + HexByte(c.r) + HexByte(c.g) + HexByte(c.b)
  }

  /** Reading back the text `ToHex` writes gives the same colour. */
  lemma HexRoundTrip(c: Bgr)
    requires ValidBgr(c)
    ensures HexColour(ToHex(c)) && HexToBgr(ToHex(c)) == c
  {
    var s := ToHex(c);
    var t := HexByte(c.r) + HexByte(c.g) + HexByte(c.b);
    assert s[1..] == t;
    assert LstripHash(s) == t;
  }

  /** A single `#` in front of six hexadecimal digits is all the conversion strips. */
  lemma OneHash(t: string)
    requires |t| == 6 && forall k :: 0 <= k < 6 ==> IsHexDigit(t[k])
    ensures HexColour("#" + t) && HexToBgr("#" + t) == Bgr(HexPair(t, 4), HexPair(t, 2), HexPair(t, 0))
  {
    assert ("#" + t)[1..] == t;
    assert t[0] != '#';
  }

  /** The red of unknown faces and failed marks, in the order OpenCV draws with. */
  lemma RedBgr()
    ensures HexColour(Red) && HexToBgr(Red) == Bgr(0x3c, 0x4c, 0xe7)
  {
    assert Red == "#" + "e74c3c";
    OneHash("e74c3c");
  }

  /** The blue of faces already marked today. */
  lemma BlueBgr()
    ensures HexColour(Blue) && HexToBgr(Blue) == Bgr(0xdb, 0x98, 0x34)
  {
    assert Blue == "#" + "3498db";
    OneHash("3498db");
  }

  /** The green of a successful mark. */
  lemma GreenBgr()
    ensures HexColour(Green) && HexToBgr(Green) == Bgr(0x71, 0xcc, 0x2e)
  {
    assert Green == "#" + "2ecc71";
    OneHash("2ecc71");
  }

  // ---------------------------------------------------------------- one pass over the results

  /** What is drawn for one face: its box, a caption and a colour. */
  datatype Label = Label(location: FaceService.Box, caption: string, colour: string)

  /**
   * The bookkeeping of one pass over a frame's results: the unknown-face counter, the set of
   * employees marked today, the labels drawn so far, the codes handed to `mark_attendance`
   * and the codes it marked.
   */
  datatype Scan = Scan(unknown: nat, marked: set<EmpCode>, labels: seq<Label>,
                       dispatched: seq<EmpCode>, succeeded: seq<EmpCode>)

  function Initial(unknown: nat, marked: set<EmpCode>): Scan
  {
    Scan(unknown, marked, [], [], [])
  }

  /**
   * One face of the result list: an unknown face counts and is drawn red; a code already
   * marked today is drawn blue without a call; any other code is marked once (a face mark)
   * and, on success, joins the set and is drawn green with the welcome, on failure red with
   * the reason. Every known face resets the counter.
   */
  function DispatchStep(s: Scan, face: FaceService.Recognition, env: AttendanceService.Collaborators): (r: Scan)
    ensures |r.labels| == |s.labels| + 1 && r.labels == s.labels + [r.labels[|s.labels|]] && r.labels[|s.labels|].location == face.location
    ensures face.code.None? ==> r == s.(unknown := s.unknown + 1, labels := r.labels) && r.labels[|s.labels|].colour == Red
    ensures face.code.Some? ==> r.unknown == 0
    ensures face.code.Some? && face.code.value in s.marked ==>
      r == s.(unknown := 0, labels := r.labels) && r.labels[|s.labels|] == Label(face.location, face.code.value, Blue)
    ensures face.code.Some? && face.code.value !in s.marked ==>
      var reply := AttendanceService.MarkAttendance(face.code.value, AttendanceService.Face, env).reply;
      && r.dispatched == s.dispatched + [face.code.value]
      && r.labels[|s.labels|].caption == reply.message
      && (reply.success ==> r.marked == s.marked + {face.code.value} && r.succeeded == s.succeeded + [face.code.value]
                              && r.labels[|s.labels|].colour == Green)
      && (!reply.success ==> r.marked == s.marked && r.succeeded == s.succeeded && r.labels[|s.labels|].colour == Red)
  {
    match face.code
    case None =>
      s.(unknown := s.unknown + 1, labels := s.labels + [Label(face.location, "Unknown", Red)])
    case Some(code) =>
      if code in s.marked then
        s.(unknown := 0, labels := s.labels + [Label(face.location, code, Blue)])
      else
        var reply := AttendanceService.MarkAttendance(code, AttendanceService.Face, env).reply;
        var dispatched := s.dispatched + [code];
        if reply.success then
          Scan(0, s.marked + {code}, s.labels + [Label(face.location, reply.message, Green)],
               dispatched, s.succeeded + [code])
        else
          Scan(0, s.marked, s.labels + [Label(face.location, reply.message, Red)], dispatched, s.succeeded)
  }

  /**
   * The pass over a whole result list; the `k`-th call to `mark_attendance` in the pass sees
   * the world `envs(k)` (its own clock reading and database state).
   */
  function Dispatch(s: Scan, faces: seq<FaceService.Recognition>, envs: nat -> AttendanceService.Collaborators): Scan
  {
    if faces == [] then s
    else
      var before := Dispatch(s, faces[..|faces| - 1], envs);
      DispatchStep(before, faces[|faces| - 1], envs(|before.dispatched|))
  }

  /** Every element of the sequence is in the set. */
  predicate AllIn(xs: seq<EmpCode>, m: set<EmpCode>)
  {
    forall k :: 0 <= k < |xs| ==> xs[k] in m
  }

  lemma AllInGrows(xs: seq<EmpCode>, m: set<EmpCode>, m': set<EmpCode>)
    requires AllIn(xs, m) && m <= m'
    ensures AllIn(xs, m')
  {
  }

  predicate Distinct(xs: seq<EmpCode>)
  {
    forall i, j :: 0 <= i < j < |xs| ==> xs[i] != xs[j]
  }

  /**
   * The set holds what it held at the start of the pass plus the codes the pass marked, and
   * those are distinct and were not marked before.
   */
  ghost predicate Bookkept(marked0: set<EmpCode>, s: Scan)
  {
    && (forall c :: c in s.marked <==> c in marked0 || c in s.succeeded)
    && Distinct(s.succeeded)
    && (forall k :: 0 <= k < |s.succeeded| ==> s.succeeded[k] !in marked0)
  }

  lemma StepKeepsBookkept(marked0: set<EmpCode>, s: Scan, face: FaceService.Recognition,
                          env: AttendanceService.Collaborators)
    requires Bookkept(marked0, s)
    ensures Bookkept(marked0, DispatchStep(s, face, env))
  {
    var r := DispatchStep(s, face, env);
    if r.succeeded != s.succeeded {
      NewMarkKeepsBookkept(marked0, s, face.code.value, r);
    }
  }

  lemma NewMarkKeepsBookkept(marked0: set<EmpCode>, s: Scan, c: EmpCode, r: Scan)
    requires Bookkept(marked0, s) && c !in s.marked
    requires r.marked == s.marked + {c} && r.succeeded == s.succeeded + [c]
    ensures Bookkept(marked0, r)
  {
    assert c !in s.succeeded && c !in marked0;
  }

  /**
   * Over one pass: one label per face, in order and at the face's location, and at most one
   * call per face.
   */
  lemma {:induction false} DispatchLabels(s: Scan, faces: seq<FaceService.Recognition>,
                                          envs: nat -> AttendanceService.Collaborators)
    ensures var r := Dispatch(s, faces, envs);
      && |r.labels| == |s.labels| + |faces|
      && r.labels[..|s.labels|] == s.labels
      && (forall k :: 0 <= k < |faces| ==> r.labels[|s.labels| + k].location == faces[k].location)
      && |r.dispatched| - |s.dispatched| <= |faces|
  {
    if faces != [] {
      var prefix := faces[..|faces| - 1];
      DispatchLabels(s, prefix, envs);
      var before := Dispatch(s, prefix, envs);
      var r := DispatchStep(before, faces[|faces| - 1], envs(|before.dispatched|));
      assert r.labels[..|before.labels|] == before.labels;
      forall k | 0 <= k < |faces| - 1
        ensures r.labels[|s.labels| + k].location == faces[k].location
      {
        assert faces[k] == prefix[k];
        assert r.labels[|s.labels| + k] == before.labels[|s.labels| + k];
      }
    }
  }

  /**
   * Over one pass: the set only grows, by exactly the codes the pass marked; no code is
   * marked twice, even when two faces in the frame carry it; no call is made for a code
   * already in the set; and only a call can mark.
   */
  lemma {:induction false} DispatchBookkeeping(unknown: nat, marked: set<EmpCode>,
                                               faces: seq<FaceService.Recognition>,
                                               envs: nat -> AttendanceService.Collaborators)
    ensures var r := Dispatch(Initial(unknown, marked), faces, envs);
      && marked <= r.marked
      && Bookkept(marked, r)
      && (forall k :: 0 <= k < |r.dispatched| ==> r.dispatched[k] !in marked)
      && |r.succeeded| <= |r.dispatched|
  {
    if faces != [] {
      var prefix := faces[..|faces| - 1];
      DispatchBookkeeping(unknown, marked, prefix, envs);
      var before := Dispatch(Initial(unknown, marked), prefix, envs);
      StepKeepsBookkept(marked, before, faces[|faces| - 1], envs(|before.dispatched|));
    }
  }

  /** The index of the last face the pass recognised, None if every face was unknown. */
  function LastKnown(faces: seq<FaceService.Recognition>): (r: Option<nat>)
    ensures r.Some? ==> r.value < |faces| && faces[r.value].code.Some?
    ensures r.Some? ==> forall k :: r.value < k < |faces| ==> faces[k].code.None?
    ensures r.None? ==> forall k :: 0 <= k < |faces| ==> faces[k].code.None?
  {
    if faces == [] then None
    else if faces[|faces| - 1].code.Some? then Some(|faces| - 1)
    else LastKnown(faces[..|faces| - 1])
  }

  /**
   * The counter counts faces, not frames: after a pass it is the number of unknown faces
   * since the last recognised one, or, when none was recognised, the count it started
   * with plus every face of the pass.
   */
  lemma {:induction false} UnknownCounterAfterPass(s: Scan, faces: seq<FaceService.Recognition>,
                                                   envs: nat -> AttendanceService.Collaborators)
    ensures Dispatch(s, faces, envs).unknown ==
      match LastKnown(faces)
      case None => s.unknown + |faces|
      case Some(i) => |faces| - 1 - i
  {
    if faces != [] {
      UnknownCounterAfterPass(s, faces[..|faces| - 1], envs);
    }
  }

  // ---------------------------------------------------------------- the screen

  /** The frame the recogniser sees: a quarter-size copy of the camera frame. */
  const RecognitionScale: real := 0.25

  /** The tolerance within which a gallery encoding matches. */
  const Tolerance: real := 0.5

  class AttendanceFrame<E> {
    var isRunning: bool
    var processThisFrame: bool
    var unknownCounter: nat
    var knownEncodings: seq<E>
    var knownIds: seq<EmpCode>
    var markedToday: set<EmpCode>
    /** Whether the manual check-in button is on screen. */
    var manualShown: bool
    /** The codes marked by face since the day's attendance was loaded, in order. */
    ghost var faceMarks: seq<EmpCode>

    /**
     * The gallery is two parallel lists; every face mark of the session is in the set and
     * none is repeated.
     */
    ghost predicate Valid()
      reads this
    {
      && |knownIds| == |knownEncodings|
      && Distinct(faceMarks)
      && AllIn(faceMarks, markedToday)
    }

    constructor ()
      ensures Valid()
      ensures !isRunning && processThisFrame && unknownCounter == 0 && !manualShown
      ensures knownEncodings == [] && knownIds == [] && markedToday == {}
    {
      isRunning := false;
      processThisFrame := true;
      unknownCounter := 0;
      knownEncodings := [];
      knownIds := [];
      markedToday := {};
      manualShown := false;
      faceMarks := [];
    }

    /**
     * `start_system`: a running system is stopped first; the gallery is loaded, then the codes
     * already marked today (`todays` is None when that load raised, which leaves the system
     * stopped with the new gallery); then, if a camera opened, the loop runs with recognition
     * on its first frame. The unknown counter is kept.
     */
    method StartSystem(gallery: seq<E>, galleryIds: seq<EmpCode>, todays: Option<set<EmpCode>>, cameraOpened: bool)
      returns (started: bool)
      requires Valid() && |galleryIds| == |gallery|
      modifies this
      ensures Valid()
      ensures knownEncodings == gallery && knownIds == galleryIds && unknownCounter == old(unknownCounter)
      ensures todays.None? ==> !started && !isRunning && markedToday == old(markedToday)
      ensures todays.Some? ==> markedToday == todays.value && faceMarks == []
      ensures started <==> todays.Some? && cameraOpened
      ensures isRunning == started
      ensures started ==> processThisFrame
      ensures !started ==> processThisFrame == old(processThisFrame)
      ensures todays.None? ==> faceMarks == old(faceMarks)
      ensures manualShown == (old(manualShown) && !old(isRunning))
    {
      if isRunning {
        StopSystem();
      }
      knownEncodings, knownIds := gallery, galleryIds;
      started := false;
      if todays.None? {
        return;
      }
      markedToday := todays.value;
      faceMarks := [];
      if cameraOpened {
        isRunning := true;
        processThisFrame := true;
        started := true;
      }
    }

    /** `stop_system`: the loop ends and the manual button is taken off the screen. */
    method StopSystem()
      requires Valid()
      modifies this`isRunning, this`manualShown
      ensures Valid() && !isRunning && !manualShown
    {
      isRunning := false;
      manualShown := false;
    }

    /**
     * `update_frame`. Stopped: nothing happens and the loop ends. A failed read reschedules
     * without touching anything, so recognition still alternates over the frames actually
     * read. Otherwise, on every other read frame, the quarter-size frame is recognised and
     * the results passed over (an empty result list resets the counter); then the alternation
     * flips and the manual button is shown exactly when the counter is above thirty.
     */
    method UpdateFrame<F>(lib: FaceService.FaceLibrary<F, E>, read: Option<F>,
                          envs: nat -> AttendanceService.Collaborators)
      returns (rescheduled: bool, labels: seq<Label>)
      requires Valid()
      modifies this
      ensures Valid()
      ensures !old(isRunning) ==> !rescheduled && labels == [] && unchanged(this)
      ensures old(isRunning) && read.None? ==> rescheduled && labels == [] && unchanged(this)
      ensures old(isRunning) && read.Some? ==>
        && rescheduled && isRunning
        && processThisFrame == !old(processThisFrame)
        && manualShown == (unknownCounter > ManualThreshold)
        && knownEncodings == old(knownEncodings) && knownIds == old(knownIds)
      ensures old(isRunning) && read.Some? && !old(processThisFrame) ==>
        labels == [] && unknownCounter == old(unknownCounter) && markedToday == old(markedToday)
        && faceMarks == old(faceMarks)
      ensures old(isRunning) && read.Some? && old(processThisFrame) ==>
        var small := lib.resize(read.value, RecognitionScale);
        var faces := FaceService.Recognitions(lib, Some(small), old(knownEncodings), old(knownIds), 1.0, Tolerance);
        var pass := Dispatch(Initial(old(unknownCounter), old(markedToday)), faces, envs);
        && labels == pass.labels
        && markedToday == pass.marked
        && unknownCounter == (if faces == [] then 0 else pass.unknown)
        && faceMarks == old(faceMarks) + pass.succeeded
    {
      if !isRunning {
        return false, [];
      }
      if read.None? {
        return true, [];
      }
      var small := lib.resize(read.value, RecognitionScale);
      labels := [];
      if processThisFrame {
        var faces := FaceService.ProcessFaceRecognition(lib, Some(small), knownEncodings, knownIds, 1.0, Tolerance);
        labels := RecognitionPass(faces, envs);
      }
      processThisFrame := !processThisFrame;
      manualShown := unknownCounter > ManualThreshold;
      rescheduled := true;
    }

    /**
     * Lines 135-162 of `update_frame`: the pass over a frame's results updates the set, the
     * counter (reset when the list is empty) and the session's face marks.
     */
    method RecognitionPass(faces: seq<FaceService.Recognition>, envs: nat -> AttendanceService.Collaborators)
      returns (labels: seq<Label>)
      requires Valid()
      modifies this`markedToday, this`unknownCounter, this`faceMarks
      ensures Valid()
      ensures var pass := Dispatch(Initial(old(unknownCounter), old(markedToday)), faces, envs);
        && labels == pass.labels
        && markedToday == pass.marked
        && unknownCounter == (if faces == [] then 0 else pass.unknown)
        && faceMarks == old(faceMarks) + pass.succeeded
    {
      var pass := DispatchAll(unknownCounter, markedToday, faces, envs);
      SessionMarksStayDistinct(faceMarks, markedToday, pass);
      labels := pass.labels;
      markedToday := pass.marked;
      unknownCounter := pass.unknown;
      faceMarks := faceMarks + pass.succeeded;
      if faces == [] {
        unknownCounter := 0;
      }
    }

    /**
     * `open_manual_checkin.submit`: the reply to the entry, as `ManualCheckIn` gives it; a
     * successful mark adds the stripped code to the set. Nothing else changes (the manual
     * button stays).
     */
    method ManualSubmit(entry: string, env: AttendanceService.Collaborators) returns (reply: Option<AttendanceService.Reply>)
      requires Valid()
      modifies this`markedToday
      ensures Valid()
      ensures reply == ManualCheckIn(entry, env)
      ensures markedToday == if reply.Some? && reply.value.success then old(markedToday) + {Strip(entry)} else old(markedToday)
    {
      reply := ManualCheckIn(entry, env);
      if reply.Some? && reply.value.success {
        AddMark(Strip(entry));
      }
    }

    /** `self.marked_today.add(code)`. */
    method AddMark(code: EmpCode)
      requires Valid()
      modifies this`markedToday
      ensures Valid() && markedToday == old(markedToday) + {code}
    {
      AllInGrows(faceMarks, markedToday, markedToday + {code});
      markedToday := markedToday + {code};
    }
  }

  /**
   * The decision of `open_manual_checkin.submit`: a blank entry makes no call; otherwise the
   * stripped code is marked manually.
   */
  function ManualCheckIn(entry: string, env: AttendanceService.Collaborators): (r: Option<AttendanceService.Reply>)
    ensures r.None? <==> IsBlank(entry)
    ensures r.Some? ==> r.value == AttendanceService.MarkAttendance(Strip(entry), AttendanceService.Manual, env).reply
  {
    var code := Strip(entry);
    if code == [] then None else Some(AttendanceService.MarkAttendance(code, AttendanceService.Manual, env).reply)
  }

  /**
   * The loop of lines 135-159 of `update_frame` over a frame's results, one face at a time:
   * it computes the pass, whose bookkeeping `DispatchBookkeeping` states.
   */
  method DispatchAll(unknown: nat, marked: set<EmpCode>, faces: seq<FaceService.Recognition>,
                     envs: nat -> AttendanceService.Collaborators)
    returns (pass: Scan)
    ensures pass == Dispatch(Initial(unknown, marked), faces, envs)
    ensures Bookkept(marked, pass) && marked <= pass.marked && |pass.labels| == |faces|
  {
    pass := Initial(unknown, marked);
    for i := 0 to |faces|
      invariant pass == Dispatch(Initial(unknown, marked), faces[..i], envs)
    {
      assert faces[..i + 1][..i] == faces[..i];
      pass := DispatchStep(pass, faces[i], envs(|pass.dispatched|));
    }
    assert faces[..|faces|] == faces;
    DispatchBookkeeping(unknown, marked, faces, envs);
    DispatchLabels(Initial(unknown, marked), faces, envs);
  }

  /** Appending the marks of a pass to the session's keeps them distinct and inside the set. */
  lemma SessionMarksStayDistinct(faceMarks: seq<EmpCode>, marked: set<EmpCode>, pass: Scan)
    requires Distinct(faceMarks) && AllIn(faceMarks, marked) && Bookkept(marked, pass)
    ensures Distinct(faceMarks + pass.succeeded) && AllIn(faceMarks + pass.succeeded, pass.marked)
  {
    var all := faceMarks + pass.succeeded;
    forall i, j | 0 <= i < j < |all|
      ensures all[i] != all[j]
    {
      if i < |faceMarks| && j >= |faceMarks| {
        assert all[i] in marked;
        assert all[j] == pass.succeeded[j - |faceMarks|];
      }
    }
    forall k | 0 <= k < |all|
      ensures all[k] in pass.marked
    {
      if k >= |faceMarks| {
        assert all[k] == pass.succeeded[k - |faceMarks|];
      }
    }
  }
}
