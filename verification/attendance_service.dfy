/**
 * The attendance rules of services/attendance_service.py: whether an arrival is Present or
 * Late against the employee's shift start, and the order in which a mark is checked and
 * recorded (office-network guard for manual entries, employee lookup, insert).
 *
 * The clock, the network check and the database are parameters: the caller passes the
 * current instant, the network status and the lookup and insert operations.
 */
module AttendanceService {
  import opened Wrappers
  import opened Text

  datatype Status = Present | Late

  /** The status as stored and shown. */
  function StatusText(s: Status): string
  {
    match s
    case Present => "Present"
    case Late => "Late"
  }

  /** A time of day to the second, as `datetime.time` holds a shift start. */
  datatype Clock = Clock(hour: nat, minute: nat, second: nat)

  predicate ValidClock(c: Clock)
  {
    c.hour < 24 && c.minute < 60 && c.second < 60
  }

  /** The reading of the local clock: a calendar date and a time of day to the microsecond. */
  datatype Instant = Instant(year: nat, month: nat, day: nat, hour: nat, minute: nat, second: nat, micro: nat)

  predicate ValidInstant(t: Instant)
  {
    && 1 <= t.month <= 12 && 1 <= t.day <= 31
    && t.hour < 24 && t.minute < 60 && t.second < 60 && t.micro < 1000000
  }

  function ClockOf(t: Instant): Clock
  {
    Clock(t.hour, t.minute, t.second)
  }

  // ---------------------------------------------------------------- formats

  /** `strftime("%Y-%m-%d")` */
  function FormatDate(t: Instant): string
  {
    NatToString(t.year) + "-" + Pad2(t.month) + "-" + Pad2(t.day)
  }

  /** `strftime("%H:%M:%S")`, the shift-time format. */
  function FormatClock(c: Clock): string
  {
    Pad2(c.hour) + ":" + Pad2(c.minute) + ":" + Pad2(c.second)
  }

  /** The ways `%H`, `%M` and `%S` write the value `v` that they read back: `str(v)` or `f"{v:02d}"`. */
  predicate FieldText(p: string, v: nat)
  {
    p == NatToString(v) || p == Pad2(v)
  }

  /**
   * One numeric field of `%H:%M:%S` as `strptime` accepts it: one or two digits whose value
   * does not exceed `max` (at most 99, the widest a two-digit field reaches).
   */
  function ClockField(p: string, max: nat): (r: Option<nat>)
    requires max < 100
    ensures r.Some? ==> r.value <= max && FieldText(p, r.value)
    ensures forall v: nat :: v <= max && FieldText(p, v) ==> r == Some(v)
  {
    if 1 <= |p| <= 2 && AllDigits(p) && DigitsValue(p) <= max then
      OneOrTwoDigits(p);
      FieldTextShape(p, max);
      Some(DigitsValue(p))
    else
      FieldTextShape(p, max);
      None
  }

  /** One or two digits are the unpadded or the padded text of their value. */
  lemma OneOrTwoDigits(p: string)
    requires 1 <= |p| <= 2 && AllDigits(p)
    ensures FieldText(p, DigitsValue(p))
  {
    var v := DigitsValue(p);
    if |p| == 1 {
      assert p[..|p| - 1] == [];
      assert DigitsValue(p[..|p| - 1]) == 0;
      assert v == DigitValue(p[0]) < 10;
      assert p == [DigitChar(v)];
    } else {
      assert p[..1] == [p[0]];
      assert DigitsValue(p[..1]) == DigitValue(p[0]);
      if p[0] == '0' {
        assert v == DigitValue(p[1]) < 10;
        assert Pad2(v) == "0" + [DigitChar(v)];
      } else {
        assert 10 <= v;
        assert NatToString(v) == NatToString(v / 10) + [DigitChar(v % 10)];
        assert v / 10 == DigitValue(p[0]) && v % 10 == DigitValue(p[1]);
      }
    }
  }

  /** A field text of a value up to `max` is one or two digits with that value. */
  lemma FieldTextShape(p: string, max: nat)
    requires max < 100
    ensures forall v: nat :: v <= max && FieldText(p, v) ==>
      1 <= |p| <= 2 && AllDigits(p) && DigitsValue(p) == v
  {
    forall v: nat | v <= max && FieldText(p, v)
      ensures 1 <= |p| <= 2 && AllDigits(p) && DigitsValue(p) == v
    {
      NatToStringRoundTrip(v);
    }
  }

  /** A field text holds no colon. */
  lemma NoColon(p: string, v: nat)
    requires FieldText(p, v)
    ensures ':' !in p
  {
    assert AllDigits(p);
    assert forall k :: 0 <= k < |p| ==> p[k] != ':';
  }

  /**
   * `datetime.strptime(s, "%H:%M:%S").time()`: exactly three colon-separated fields of one or
   * two digits, hour at most 23, minute and second at most 59; anything else is the
   * `ValueError` case, `None`. (The pattern admits seconds 60 and 61, which the `datetime`
   * constructor then rejects with the same error.) `ParseClockReads` and `ParseClockAccepts`
   * state which texts are accepted, as which clock.
   */
  function ParseClock(s: string): (r: Option<Clock>)
    ensures r.Some? ==> ValidClock(r.value)
  {
    var fields := Split(s, ':');
    if |fields| != 3 then None
    else
      var h := ClockField(fields[0], 23);
      var m := ClockField(fields[1], 59);
      var sec := ClockField(fields[2], 59);
      if h.None? || m.None? || sec.None? then None
      else Some(Clock(h.value, m.value, sec.value))
  }

  /** An accepted text is the hour, minute and second of its clock, each padded or not, joined by colons. */
  lemma ParseClockReads(s: string)
    requires ParseClock(s).Some?
    ensures var c := ParseClock(s).value; var f := Split(s, ':');
      && |f| == 3 && s == f[0] + ":" + f[1] + ":" + f[2]
      && FieldText(f[0], c.hour) && FieldText(f[1], c.minute) && FieldText(f[2], c.second)
  {
    JoinThree(s);
  }

  /** A text that splits into three fields is those fields joined by colons. */
  lemma JoinThree(s: string)
    requires |Split(s, ':')| == 3
    ensures var f := Split(s, ':'); s == f[0] + ":" + f[1] + ":" + f[2]
  {
    var fields := Split(s, ':');
    SplitJoin(s, ':');
    assert fields[1..][1..] == [fields[2]];
    assert Join(fields[1..], ':') == fields[1] + [':'] + fields[2];
    assert Join(fields, ':') == fields[0] + [':'] + (fields[1] + [':'] + fields[2]);
  }

  /**
   * Every text `strptime` reads as a valid clock is accepted with that clock: each field
   * written with or without its leading zero, as in `9:5:0` or `09:05:00`.
   */
  lemma ParseClockAccepts(c: Clock, a: string, b: string, d: string)
    requires ValidClock(c)
    requires FieldText(a, c.hour) && FieldText(b, c.minute) && FieldText(d, c.second)
    ensures ParseClock(a + ":" + b + ":" + d) == Some(c)
  {
    NoColon(a, c.hour);
    NoColon(b, c.minute);
    NoColon(d, c.second);
    SplitClockText(a, b, d);
    assert ClockField(a, 23) == Some(c.hour);
    assert ClockField(b, 59) == Some(c.minute);
    assert ClockField(d, 59) == Some(c.second);
  }

  /** Three colon-free fields joined by colons split back into themselves. */
  lemma SplitClockText(a: string, b: string, d: string)
    requires ':' !in a && ':' !in b && ':' !in d
    ensures Split(a + ":" + b + ":" + d, ':') == [a, b, d]
  {
    assert a + ":" + b + ":" + d == a + [':'] + (b + [':'] + d);
    SplitAfterPiece(a, ':', b + [':'] + d);
    SplitAfterPiece(b, ':', d);
    SplitWithoutSeparator(d, ':');
  }

  /** Reading back what `FormatClock` writes gives the same time of day. */
  lemma ParseFormatClock(c: Clock)
    requires ValidClock(c)
    ensures ParseClock(FormatClock(c)) == Some(c)
  {
    ParseClockAccepts(c, Pad2(c.hour), Pad2(c.minute), Pad2(c.second));
  }

  /**
   * Python's comparison `current_time > shift_start` of two `datetime.time` values: by hour,
   * then minute, then second, then microsecond (the shift start has none).
   */
  predicate After(t: Instant, c: Clock)
  {
    || t.hour > c.hour
    || (t.hour == c.hour && t.minute > c.minute)
    || (t.hour == c.hour && t.minute == c.minute && t.second > c.second)
    || (t.hour == c.hour && t.minute == c.minute && t.second == c.second && t.micro > 0)
  }

  /** Microseconds since midnight. */
  function MicrosOfDay(t: Instant): nat
  {
    ((t.hour * 60 + t.minute) * 60 + t.second) * 1000000 + t.micro
  }

  /** Seconds since midnight. */
  function SecondsOfDay(c: Clock): nat
  {
    (c.hour * 60 + c.minute) * 60 + c.second
  }

  /** The field-by-field comparison is the comparison of the two times on the time line. */
  lemma AfterIsLaterOnTimeLine(t: Instant, c: Clock)
    requires ValidInstant(t) && ValidClock(c)
    ensures After(t, c) <==> MicrosOfDay(t) > SecondsOfDay(c) * 1000000
  {
    var a := (t.hour * 60 + t.minute) * 60 + t.second;
    var b := SecondsOfDay(c);
    assert MicrosOfDay(t) == a * 1000000 + t.micro;
    assert SecondsOfDay(c) * 1000000 == b * 1000000;
    assert (t.hour * 60 + t.minute) * 60 + t.second == a;
    LexicographicSeconds(t.hour, t.minute, t.second, c.hour, c.minute, c.second);
    if a > b {
      assert a * 1000000 >= (b + 1) * 1000000;
    } else if a < b {
      assert a * 1000000 + t.micro < (a + 1) * 1000000 <= b * 1000000;
    }
  }

  /** Comparing hours, then minutes, then seconds compares seconds since midnight. */
  lemma LexicographicSeconds(h1: nat, m1: nat, s1: nat, h2: nat, m2: nat, s2: nat)
    requires m1 < 60 && s1 < 60 && m2 < 60 && s2 < 60
    ensures var a, b := (h1 * 60 + m1) * 60 + s1, (h2 * 60 + m2) * 60 + s2;
      && (a > b <==> h1 > h2 || (h1 == h2 && (m1 > m2 || (m1 == m2 && s1 > s2))))
      && (a == b <==> h1 == h2 && m1 == m2 && s1 == s2)
  {
    if h1 > h2 {
      assert h1 * 60 >= h2 * 60 + 60;
      assert (h1 * 60 + m1) * 60 >= (h2 * 60 + m2 + 1) * 60;
    } else if h1 < h2 {
      assert h2 * 60 >= h1 * 60 + 60;
      assert (h2 * 60 + m2) * 60 >= (h1 * 60 + m1 + 1) * 60;
    } else if m1 > m2 {
      assert (h1 * 60 + m1) * 60 >= (h2 * 60 + m2 + 1) * 60;
    } else if m1 < m2 {
      assert (h2 * 60 + m2) * 60 >= (h1 * 60 + m1 + 1) * 60;
    }
  }

  // ---------------------------------------------------------------- status

  /** What `compute_attendance_status` returns: status, date string and time string. */
  datatype StatusReport = StatusReport(status: Status, date: string, time: string)

  /**
   * `compute_attendance_status`: the date and time strings both come from `now`; the status
   * is Late exactly when the stripped shift start parses and `now` is strictly after it.
   * A missing, blank or unparseable shift start gives Present.
   */
  function ComputeAttendanceStatus(shiftStart: Option<string>, now: Instant): (r: StatusReport)
    ensures r.date == FormatDate(now) && r.time == FormatClock(ClockOf(now))
    ensures shiftStart.None? || IsBlank(shiftStart.value) ==> r.status == Present
    ensures shiftStart.Some? && ParseClock(Strip(shiftStart.value)).None? ==> r.status == Present
    ensures r.status == Late <==>
      shiftStart.Some? && ParseClock(Strip(shiftStart.value)).Some?
      && After(now, ParseClock(Strip(shiftStart.value)).value)
  {
    var date := FormatDate(now);
    var time := FormatClock(ClockOf(now));
    if shiftStart.None? || shiftStart.value == [] || Strip(shiftStart.value) == [] then
      StatusReport(Present, date, time)
    else
      match ParseClock(Strip(shiftStart.value))
      case None => StatusReport(Present, date, time)
      case Some(start) => StatusReport(if After(now, start) then Late else Present, date, time)
  }

  /** The time string of a report reads back as the time of day of the same instant. */
  lemma ReportTimeIsNow(shiftStart: Option<string>, now: Instant)
    requires ValidInstant(now)
    ensures ParseClock(ComputeAttendanceStatus(shiftStart, now).time) == Some(ClockOf(now))
  {
    ParseFormatClock(ClockOf(now));
  }

  /** A string that neither starts nor ends with white space is its own strip. */
  lemma StripUnpadded(s: string)
    requires s != [] && !IsSpace(s[0]) && !IsSpace(s[|s| - 1])
    ensures Strip(s) == s
  {
    assert StripStart(s) == s;
    assert StripEnd(s) == s;
  }

  /**
   * For a shift start stored as `HH:MM:SS`, an arrival is Late exactly when it falls after
   * that second on the time line: at the shift start itself, and within its first
   * microsecond, it is Present.
   */
  lemma LateIffAfterShiftStart(start: Clock, now: Instant)
    requires ValidClock(start) && ValidInstant(now)
    ensures ComputeAttendanceStatus(Some(FormatClock(start)), now).status == Late
        <==> MicrosOfDay(now) > SecondsOfDay(start) * 1000000
  {
    var s := FormatClock(start);
    assert s[0] == Pad2(start.hour)[0] && s[|s| - 1] == Pad2(start.second)[1];
    StripUnpadded(s);
    ParseFormatClock(start);
    AfterIsLaterOnTimeLine(now, start);
  }

  // ---------------------------------------------------------------- marking

  /** How a mark was requested; only a manual entry is guarded by the office network. */
  datatype Method = Face | Manual

  /** The method as stored. */
  function MethodText(m: Method): string
  {
    match m
    case Face => "FACE"
    case Manual => "MANUAL"
  }

  /** `get_employee_shift_info`: the employee's full name (None if unknown) and the role's shift start. */
  datatype ShiftInfo = ShiftInfo(fullName: Option<string>, shiftStart: Option<string>)

  /** The row `insert_attendance` is asked to store. */
  datatype AttendanceRow = AttendanceRow(code: string, date: string, time: string, status: string, how: string)

  /** A `(success, message)` pair. */
  datatype Reply = Reply(success: bool, message: string)

  /**
   * The world `mark_attendance` talks to: the office-network check, the employee lookup,
   * the attendance insert (whose reply carries the full name on success, or the reason it
   * was refused, e.g. a second mark on one day) and the clock.
   */
  datatype Collaborators = Collaborators(
    onOfficeNetwork: bool,
    lookup: string -> ShiftInfo,
    insert: AttendanceRow -> Reply,
    now: Instant)

  /** The calls `mark_attendance` makes, in order. */
  datatype Call = CheckNetwork | LookupShift(code: string) | Insert(row: AttendanceRow)

  datatype MarkOutcome = MarkOutcome(reply: Reply, calls: seq<Call>)

  const SecurityAlert: string := "Security Alert: Not connected to Office Wi-Fi."
  const NotFound: string := "Employee Not Found"
  const Welcome: string := "Welcome, "

  /** The row a mark for `code` inserts, given the employee's shift start. */
  function RowFor(code: string, how: Method, shiftStart: Option<string>, now: Instant): AttendanceRow
  {
    var report := ComputeAttendanceStatus(shiftStart, now);
    AttendanceRow(code, report.date, report.time, StatusText(report.status), MethodText(how))
  }

  /** The network check a mark makes before anything else: only a manual mark makes it. */
  function Guard(how: Method): seq<Call>
  {
    if how == Manual then [CheckNetwork] else []
  }

  /** No call in the sequence is an insert. */
  predicate NoInsert(calls: seq<Call>)
  {
    forall k :: 0 <= k < |calls| ==> !calls[k].Insert?
  }

  /**
   * `mark_attendance`: a manual mark off the office network is refused before anything else;
   * an unknown employee is refused without an insert; otherwise one row is inserted, and a
   * successful insert is answered with a welcome naming the employee, a failed one with the
   * insert's own message.
   */
  function MarkAttendance(code: string, how: Method, env: Collaborators): (r: MarkOutcome)
    ensures how == Face ==> CheckNetwork !in r.calls
    ensures how == Manual ==> |r.calls| >= 1 && r.calls[0] == CheckNetwork
    ensures how == Manual && !env.onOfficeNetwork ==>
      r == MarkOutcome(Reply(false, SecurityAlert), [CheckNetwork])
    ensures (how == Face || env.onOfficeNetwork) && env.lookup(code).fullName.None? ==>
      r == MarkOutcome(Reply(false, NotFound), Guard(how) + [LookupShift(code)]) && NoInsert(r.calls)
    ensures (how == Face || env.onOfficeNetwork) && env.lookup(code).fullName.Some? ==>
      var row := RowFor(code, how, env.lookup(code).shiftStart, env.now);
      && r.calls == Guard(how) + [LookupShift(code), Insert(row)]
      && r.reply.success == env.insert(row).success
      && r.reply.message == (if env.insert(row).success then Welcome else "") + env.insert(row).message
    ensures r.reply.success ==>
      && (how == Face || env.onOfficeNetwork) && env.lookup(code).fullName.Some?
      && env.insert(RowFor(code, how, env.lookup(code).shiftStart, env.now)).success
  {
    if how == Manual && !env.onOfficeNetwork then
      MarkOutcome(Reply(false, SecurityAlert), Guard(how))
    else
      var info := env.lookup(code);
      if info.fullName.None? then
        MarkOutcome(Reply(false, NotFound), Guard(how) + [LookupShift(code)])
      else
        var row := RowFor(code, how, info.shiftStart, env.now);
        var reply := env.insert(row);
        var calls := Guard(how) + [LookupShift(code), Insert(row)];
        MarkOutcome(if reply.success then Reply(true, Welcome + reply.message) else Reply(false, reply.message), calls)
  }

  /** A face mark does not depend on the office network. */
  lemma FaceMarkIgnoresNetwork(code: string, env: Collaborators, network: bool)
    ensures MarkAttendance(code, Face, env) == MarkAttendance(code, Face, env.(onOfficeNetwork := network))
  {
  }
}
