# Face attendance and payroll core, modelled in Dafny

This project models the decision logic of a desktop HR system. The system marks employee attendance by face recognition and computes monthly salaries. The Python code is a tkinter `after()` loop that polls a camera. Around the opaque face-library calls sit five small pieces of logic, and each becomes one Dafny module:

- **`FaceService`** (`face_service.dfy`)
  - The head-pose classifier. It compares the nose-to-eye distances against the thresholds 0.6 and 1.4. It fails where the code raises: on an empty landmark group (`IndexError`) and on a zero divisor.
  - Per-face recognition. Each face gets the code of the *first* gallery entry within tolerance, not the nearest one.
- **`EmployeeUi`** (`employee_ui.dfy`)
  - The pose-guided enrollment capture: the states IDLE, FRONT, LEFT, RIGHT and DONE, a stability counter, and five encoding samples.
  - It is written as a pure step function with lemmas about runs of frames.
  - The class `EmployeeFrame` holds the screen's fields and methods.
- **`AttendanceService`** (`attendance_service.dfy`)
  - Present versus Late against the shift start, which is parsed as `strptime` does.
  - The ordered checks of `mark_attendance`: the office-network guard for manual marks, the employee lookup, then the insert.
- **`AttendanceUi`** (`attendance_ui.dfy`)
  - The live screen, as the class `AttendanceFrame`.
  - Recognition runs on every other frame that was read.
  - For each face the screen updates the unknown-face counter, marks the face once, and grows the in-memory set of codes marked today.
  - The manual check-in button appears when the counter is above 30. The screen also has a manual submit.
  - Also here: the `#RRGGBB` → BGR colour conversion.
- **`PayrollService`** (`payroll_service.dfy`)
  - Salary arithmetic over exact reals: payable days, earned basic, bonus, PF, the tax waiver and the clamp at zero.
  - The ledger text and the last-day-of-month date written when a month is paid.

`Text` (`text.dfy`) models the Python string built-ins the core relies on:

- `str.strip()` with Python's white-space set
- `str(n)` and `f"{n:02d}"`

It also holds the model's own splitting on one character, `Text.Split`, and its round-trip with joining. The core itself never splits a string: `Split` stands for the `:` separators that `strptime`'s `%H:%M:%S` reads, and it is how the month key, ledger and cleared-date texts are shown to read back.

`Wrappers` (`wrappers.dfy`) holds `Option`.

The outside world enters as parameters:

- **Face library.** A `FaceLibrary` record of functions covering frame size, resize, locate, encode, landmarks and distance.
- **Camera.** `Option<F>`, where `None` means the read failed.
- **Clock.** An `Instant`.
- **Database and network.** A `Collaborators` record holding the network flag, the lookup and the insert. `calculate_salary` takes a `fetch` function for its query.

### Behaviour worth knowing

The code behaves as follows, and the model with it:

- **Snap timing.** A snap needs the stability counter to *exceed* 8, so it happens on the ninth matching frame in a row.
- **Frames with no face.** A frame with no landmarks leaves the counter as it is.
- **One thread.** Recognition, marking and drawing run in the Tk loop itself, one frame at a time. Repeat marks are suppressed by the `marked_today` set and by the database's once-a-day rule.
- **Unknown counter.** It counts unknown *faces*, one per face in each recognised frame. A successful manual entry does not clear the fallback button.
- **Errors in the loop.** An exception in either camera loop stops the camera.
- **Late check precision.** The Late test compares at microsecond precision. An arrival at 09:00:00.5 for a 09:00:00 shift is Late, yet the recorded time string reads `09:00:00`.
- **Payslip label.** The period label names the month in which the salary is *computed* (`datetime.now()`), whatever month was requested.

## Model

| member | source | states |
|---|---|---|
| FaceService.PoseOfRatio | services/face_service.py:29-34 | FRONT exactly when 0.6 < ratio < 1.4 (both strict), LEFT exactly when ratio ≤ 0.6, RIGHT exactly when ratio ≥ 1.4 |
| FaceService.DetectHeadPose | services/face_service.py:15-34 | fails exactly when a landmark group is empty (IndexError on the mean) or the right-eye-minus-nose distance is −1e-6 (ZeroDivisionError); otherwise FRONT and LEFT exactly when the ratio (nose − left-eye centroid) / (right-eye centroid − nose + 1e-6) is in (0.6, 1.4) or at most 0.6 |
| FaceService.PoseTranslationInvariant | services/face_service.py:20-27 | shifting every landmark horizontally by the same amount leaves the pose (and the failure case) unchanged |
| FaceService.SymmetricFaceIsFront | services/face_service.py:20-30 | a nose exactly midway between the eye centroids, at least 1e-5 from each, is classified FRONT |
| FaceService.FirstMatchIndex | services/face_service.py:80-84 | the smallest gallery index whose comparison succeeds, or none when no entry is within tolerance |
| FaceService.FirstMatchBeatsCloserLater | services/face_service.py:80-84 | the first matching entry wins even when a later entry is strictly closer |
| FaceService.IdentifyStableUnderAppend | services/face_service.py:80-84 | enrolling more gallery entries after a matching one never changes the identity given to a probe |
| FaceService.ProcessFaceRecognition | services/face_service.py:47-90 | no frame, an empty frame or no located face gives []; otherwise one result per located face zipped with its encoding, in order, with the location unchanged and the first-match code |
| Text.Strip | services/attendance_service.py:26-30 | `strip()`: a slice of the input with only white space before and after it; empty exactly when the input is blank, otherwise starting and ending with a non-space |
| Text.NatToStringRoundTrip | services/payroll_service.py:22 | reading back the digits of `str(n)` gives n |
| Text.Pad2 | services/payroll_service.py:22 | `f"{n:02d}"`: at least two digits, exactly two below 100, with value n; from 10 up it is `str(n)`, and a leading zero only for n below 10 |
| Text.SplitJoin | services/attendance_service.py:30 | splitting on a separator and joining again gives the string back |
| EmployeeUi.StageOf | ui/employee_ui.py:237-245 | the state for a sample count: never IDLE, DONE exactly at 5, and below 5 the state whose target is the planned pose of the next sample (FRONT, FRONT, FRONT, LEFT, RIGHT) |
| EmployeeUi.StageOfMonotone | ui/employee_ui.py:237-245 | more samples never move the state backwards |
| EmployeeUi.CaptureStep | ui/employee_ui.py:178-245 | a frame without a face or with an unclassifiable pose leaves everything unchanged; a mismatching pose resets the counter; a match counts, and the ninth takes the first encoding if any and resets the counter either way; from a running capture the result is well formed, the state never goes back and a new sample is always taken in its planned pose |
| EmployeeUi.RunAppend | ui/employee_ui.py:146-176 | processing two runs of frames one after the other is processing their concatenation |
| EmployeeUi.MatchingFramesCount | ui/employee_ui.py:212-221 | up to eight frames in the target pose only raise the counter; no sample is taken |
| EmployeeUi.NineMatchingFramesSnap | ui/employee_ui.py:212-245 | from a zero counter, nine frames in the target pose take exactly one sample, reset the counter and move to the state of the new count |
| EmployeeUi.RunHoldPlan | ui/employee_ui.py:178-245 | from any number of samples taken, holding each still-planned pose for nine frames takes the remaining samples, in order, and ends in DONE with the counter at zero |
| EmployeeUi.CompleteCapture | ui/employee_ui.py:178-245 | 27 FRONT, 9 LEFT and 9 RIGHT frames from a fresh start end in DONE with five samples |
| EmployeeUi.EmployeeFrame.constructor | ui/employee_ui.py:15-27 | camera off, state IDLE, counter 0, no samples |
| EmployeeUi.EmployeeFrame.ToggleCamera | ui/employee_ui.py:119-136 | starting (when the device opens) clears the samples and enters FRONT, keeping the counter; stopping keeps the capture; a failed open changes nothing |
| EmployeeUi.EmployeeFrame.StopCamera | ui/employee_ui.py:138-144 | the camera is off |
| EmployeeUi.EmployeeFrame.UpdateFrame | ui/employee_ui.py:146-176 | a stopped camera or failed read changes nothing and ends the loop; otherwise one capture step on the half-size frame, and the loop continues exactly when the pose was classifiable and the state is not DONE; samples never exceed five |
| EmployeeUi.EmployeeFrame.ProcessAutoCapture | ui/employee_ui.py:178-225 | the fields after one frame are the capture step of the observation, with the raise case reported |
| EmployeeUi.EmployeeFrame.CaptureSnap | ui/employee_ui.py:227-245 | without an encoding nothing changes; otherwise the first encoding is appended, the progress is count/5 × 100 and the state is the one the new count calls for |
| EmployeeUi.EmployeeFrame.SaveRequest | ui/employee_ui.py:266-282 | nothing is sent when the code or the name is empty; otherwise both go with the captured encodings |
| AttendanceService.ClockField | services/attendance_service.py:30 | a field read as v is `str(v)` or `f"{v:02d}"` with v within its bound, and every such text is read as v |
| AttendanceService.ParseClock | services/attendance_service.py:29-36 | an accepted shift start is a valid time of day (hour ≤ 23, minute and second ≤ 59); which texts are accepted, as which time, is stated by the two lemmas below |
| AttendanceService.ParseClockReads | services/attendance_service.py:29-36 | an accepted shift start is exactly three colon-separated fields, the hour, minute and second of the time returned, each padded or not |
| AttendanceService.ParseClockAccepts | services/attendance_service.py:29-36 | every text made of a valid time's hour, minute and second, each padded or not (`9:5:0`, `09:05:00`), joined by colons, is accepted as that time |
| AttendanceService.ParseFormatClock | services/attendance_service.py:14-30 | parsing the `%H:%M:%S` text of a time of day gives that time back |
| AttendanceService.AfterIsLaterOnTimeLine | services/attendance_service.py:31-32 | Python's field-by-field time comparison is the comparison of microseconds since midnight |
| AttendanceService.ComputeAttendanceStatus | services/attendance_service.py:17-36 | date and time strings from the same instant; a missing, blank or unparseable shift start gives Present; Late exactly when the stripped start parses and now is strictly after it |
| AttendanceService.ReportTimeIsNow | services/attendance_service.py:22-24 | the reported time string reads back as the instant's time of day |
| AttendanceService.LateIffAfterShiftStart | services/attendance_service.py:29-33 | for a stored `HH:MM:SS` start, Late exactly when now is past that second on the time line; at the start itself, Present |
| AttendanceService.MarkAttendance | services/attendance_service.py:39-60 | a manual mark off the office network is refused with the security alert before any lookup; a face mark never checks the network; an unknown employee is refused without an insert; otherwise exactly one insert of the computed row (status `Present`/`Late`, method `FACE`/`MANUAL`) after the lookup, answered "Welcome, " + name on success and with the insert's message on failure |
| AttendanceService.FaceMarkIgnoresNetwork | services/attendance_service.py:45-47 | the outcome of a face mark does not depend on the network |
| AttendanceUi.HexToBgr | ui/attendance_ui.py:173 | each of the three channels is in 0..255; the channel values themselves are pinned by `HexRoundTrip` and `OneHash` |
| AttendanceUi.HexRoundTrip | ui/attendance_ui.py:173 | converting the `#rrggbb` text of a colour gives the colour back, in BGR order |
| AttendanceUi.RedBgr | ui/attendance_ui.py:137-155 | the red of unknown faces and failed marks, `#e74c3c`, reaches OpenCV as (0x3c, 0x4c, 0xe7) |
| AttendanceUi.BlueBgr | ui/attendance_ui.py:137-155 | the blue of faces already marked, `#3498db`, reaches OpenCV as (0xdb, 0x98, 0x34) |
| AttendanceUi.GreenBgr | ui/attendance_ui.py:137-155 | the green of a successful mark, `#2ecc71`, reaches OpenCV as (0x71, 0xcc, 0x2e) |
| AttendanceUi.DispatchStep | ui/attendance_ui.py:135-159 | unknown face: counter +1, red; code marked today: counter 0, blue, no call; other code: exactly one face mark, counter 0, green and added to the set on success, red and not added on failure |
| AttendanceUi.DispatchLabels | ui/attendance_ui.py:135-159 | a pass appends one label per face, in order, at the face's location, and makes at most one call per face |
| AttendanceUi.DispatchBookkeeping | ui/attendance_ui.py:135-159 | the set only grows, by exactly the codes the pass marked; those are distinct and were not in the set, even when two faces carry the same code; no call for a code already in the set |
| AttendanceUi.UnknownCounterAfterPass | ui/attendance_ui.py:140-156 | the counter counts faces: after a pass it is the number of unknown faces since the last recognised one, or the old count plus every face when none was recognised |
| AttendanceUi.DispatchAll | ui/attendance_ui.py:135-159 | the loop over the results computes the pass, with its bookkeeping |
| AttendanceUi.SessionMarksStayDistinct | ui/attendance_ui.py:142-149 | across passes no code is face-marked twice in a session, and every face mark is in the set |
| AttendanceUi.AttendanceFrame.constructor | ui/attendance_ui.py:16-30 | stopped, recognition due on the first frame, counter 0, empty gallery and set |
| AttendanceUi.AttendanceFrame.StartSystem | ui/attendance_ui.py:60-97 | a running system is stopped; the gallery is loaded, then today's marks (a failed load leaves it stopped); it runs exactly when the load succeeded and a camera opened, with recognition on the first frame; the counter is kept; the manual button is hidden exactly when a running system was stopped; otherwise the alternation flag (when not started) and the session marks (when the load failed) stay as they were |
| AttendanceUi.AttendanceFrame.StopSystem | ui/attendance_ui.py:99-105 | stopped and the manual button hidden |
| AttendanceUi.AttendanceFrame.UpdateFrame | ui/attendance_ui.py:107-196 | stopped: nothing; failed read: rescheduled with nothing changed; otherwise recognition on alternate read frames, the pass applied (empty results reset the counter), the alternation flipped, and the manual button shown exactly when the counter exceeds 30 |
| AttendanceUi.AttendanceFrame.RecognitionPass | ui/attendance_ui.py:126-164 | the set, the counter and the session's face marks after a frame's results |
| AttendanceUi.ManualCheckIn | ui/attendance_ui.py:208-213 | no reply, and no call, exactly when the entry is blank; otherwise the reply of a manual mark of the stripped code |
| AttendanceUi.AttendanceFrame.ManualSubmit | ui/attendance_ui.py:208-217 | replies as `ManualCheckIn`; the stripped code joins the set exactly when the mark succeeds, and the set is otherwise unchanged |
| AttendanceUi.AttendanceFrame.AddMark | ui/attendance_ui.py:216 | the code joins the set, nothing else changes, and every face mark of the session stays in the set |
| PayrollService.MonthKey | services/payroll_service.py:22-23 | the year, a dash, then the month |
| PayrollService.MonthKeyRoundTrip | services/payroll_service.py:22-23 | the key splits into the year and the two-digit month, which read back as the numbers |
| PayrollService.Tax | services/payroll_service.py:44-45 | the tax deduction when gross is positive, 0 otherwise (the waiver; `NetGrowsWithPresentDays` proves net never drops across it) |
| PayrollService.Net | services/payroll_service.py:47-49 | gross − PF − tax, clamped so it is never negative |
| PayrollService.CalculateSalary | services/payroll_service.py:17-65 | None exactly when there is no data; otherwise the requested employee code with the fetched name, department and role, base, present and leave days; bonus = per-day bonus × present days, PF = rate × base/30 × (present + leave), the tax waiver, net ≥ 0 and clamped, and the label of the current month with the requested year |
| PayrollService.LeaveEarnsNoBonus | services/payroll_service.py:33-39 | extra leave days add base/30 each to earned basic and nothing to the bonus |
| PayrollService.NetGrowsWithPresentDays | services/payroll_service.py:33-49 | with non-negative amounts and a PF rate of at most 1, one more present day never lowers net pay, tax waiver included |
| PayrollService.LastDay | services/payroll_service.py:72 | 28 to 31 days; February has 29 exactly in Gregorian leap years; 30 exactly for April, June, September and November |
| PayrollService.YearLength | services/payroll_service.py:72 | the month lengths add up to 365, or 366 in a leap year |
| PayrollService.MarkAsPaid | services/payroll_service.py:67-75 | nothing recorded exactly when the month is outside 1..12; otherwise the payment carries the employee and the amount |
| PayrollService.LedgerTextReadsBack | services/payroll_service.py:69 | the ledger text splits into the unpadded month and the year |
| PayrollService.ClearedDateReadsBack | services/payroll_service.py:71-73 | the cleared date splits into the year, the two-digit month and the month's two-digit last day, and starts with the month key |

## Left out

- **Database, network and camera I/O.** SQL queries, the SSID discovery in `utils/network.py` and the camera device are parameters, not models.
  - Camera opening, including the fallback to device index 1, is a single `cameraOpened` flag.
  - Lookup and insert are total functions, so an exception raised inside them is not modelled.
- **The face library.** `face_recognition` and OpenCV are abstract functions, so their numerics are not part of the model. This covers landmarks, encodings, distances, resizing, the mirror flip and the colour conversions.
  - The attendance loop converts BGR to RGB at ui/attendance_ui.py:120, and `process_face_recognition` converts the result a second time at services/face_service.py:67. This double conversion is not visible in the model.
- **Drawing and widgets.** Overlays, captions, the ×4 rescaling of boxes, status texts, instruction colours and the frozen final frame are left out. For the colour of each box, the model keeps only the hex text.
- **Floating point.** Reals are exact, so float rounding in the pose ratio and in salary arithmetic is not modelled. This includes `round(..., 2)` in the payslip.
- **Not modelled:**
  - `generate_payslip_pdf`, which writes a file.
  - `add_leave`, a plain delegation to SQL.
  - The unreachable code after its `return` at services/payroll_service.py:127-142.
- AttendanceService.ComputeAttendanceStatus: a shift start whose fields use non-ASCII decimal digits counts as unparseable, and so yields Present. Python's `strptime` accepts those digits through `\d`.
- AttendanceService.FormatDate: years are printed without zero padding, so years below 1000 may differ from the platform's `%Y`.
- AttendanceService.MarkAttendance: only the two methods FACE and MANUAL are modelled. Any other method string behaves like FACE in the source.
- AttendanceUi.HexToBgr: requires six hex digits after the leading `#`s. The three colours the screen uses all have them. The leniency of Python's `int(..., 16)` for shorter or padded slices is not modelled.
- PayrollService.CalculateSalary: years are natural numbers, and the payslip amounts are unrounded.
- PayrollService.MarkAsPaid: returns the payment handed to `record_payment`. The reply of that database call is not modelled.
- EmployeeUi.EmployeeFrame.SaveRequest: models only the required-field check and the data that reaches the model. The joining date, salary parsing and department/role maps are left out, and so is the result of `add_employee`.
- EmployeeUi.EmployeeFrame.UpdateFrame: a raise from the pose classifier is modelled, and it stops the camera. A raise from the library or from rendering is not.
