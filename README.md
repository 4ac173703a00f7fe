# homewatch: the capture loop and the e-mail notifier

A model of the motion-capture core of homewatch: the `Camera` capture loop
in `surveillance.py` and the rate-limited `Mailer` in `mailer.py`.

- **Camera.** `start` loops over frames. It skips ungrabbed frames. It takes
  the first grabbed frame as the background. It decides that a frame shows
  motion when some contour's area reaches `min_area`. When the frame shows
  motion and at least `min_interval` has passed since `last_capture`, it
  saves the frame under a locator derived from the timestamp. It then calls
  every handler in list order with that locator and that instant. The loop
  leaves on ESC when the preview is shown, or when `stop()` clears
  `_running`.
- **Mailer.** `send_mail` tries to send a message only when `interval` has
  passed since `_last_send`. It moves `_last_send` to the event's timestamp
  only when the SMTP exchange succeeds, so a failed send is retried at the
  next eligible event.

Modules:

- `DateTimes` models Python's naive `datetime` as a subset type of field
  records. `EpochMicros` turns an instant into its exact microsecond offset
  from 1970-01-01. `(b - a).total_seconds() >= k` becomes
  `IntervalElapsed(a, b, k)`, with `k` held in microseconds.
  `NextIsOneMicrosecondLater` checks the day arithmetic against the
  calendar: the next instant, carried through month ends and leap years,
  is exactly one microsecond later.
- `Decimal` and `ImagePaths` model the `strftime` formatting used in
  `_save_image`, with parsers that prove the locator determines the
  capture instant.
- `Surveillance` has the pure model of one iteration (`Step`) and of a
  session (`Run`). Its imperative class `Camera` (`Start`, `Loop`,
  `Iterate`, `SaveImage`, `Notify`, `Stop`) is proved to follow them.
  OpenCV, the clock, the keyboard and the signal handler are an oracle:
  a sequence of `Tick` values. Effects (frames archived, handlers called)
  go into a ghost log.
- `Mail` has the pure model `SendStep`/`SendAll` and the class `Mailer`,
  which is proved to follow them. An SMTP exchange is reduced to its
  outcome, `Delivered` or `SmtpError`.

Two design points:

- **Handler dispatch.** Handler values belong to an abstract type `H`. The
  program's only handler class, `Mailer`, defines `send_mail` but no
  `handle`. As written, `handler.handle(...)` raises `AttributeError` on
  the first capture when e-mail is enabled. The model dispatches through
  the `handle` operation that the loop calls.
- **`_save_image` and the motion test.** `_save_image` keeps its
  path-building steps. The contour test keeps its `for` loop as the method
  `DetectMotion`.

## Model

| member | source | states |
|---|---|---|
| Decimal.Padded | surveillance.py:86 | a zero-padded numeric field (`%H`, `%M`, `%S` two digits, `%f` six) has exactly the field width and only digits |
| Decimal.ValueOfPadded | surveillance.py:86 | reading a padded field back as a decimal yields the number it was made from |
| Decimal.PaddedInjective | surveillance.py:83 | different values padded to the same width give different fields |
| Decimal.PaddedOfValue | surveillance.py:86 | every string of decimal digits is the padded numeral, at its own width, of the number it denotes (the converse of `ValueOfPadded`) |
| DateTimes.EpochIsZero | surveillance.py:25 | `utcfromtimestamp(0)`, the initial `last_capture` and `_last_send`, lies at offset zero |
| DateTimes.EpochMicros | surveillance.py:64 | the exact offset in microseconds of an instant from 1970-01-01 00:00, by the proleptic Gregorian day count that `datetime` uses |
| DateTimes.ElapsedMicros | surveillance.py:64 | the `timedelta` `now - last_capture` as a whole number of microseconds: the difference of the two offsets, negative when `now` is earlier |
| DateTimes.IntervalElapsed | surveillance.py:64 | the gate `(now - last).total_seconds() >= min_interval`, with both sides in microseconds |
| DateTimes.Next | surveillance.py:64 | the instant one microsecond later on the calendar: the microsecond goes up by one and carries into seconds, minutes, hours, days (by month length and leap year), months and years |
| DateTimes.Weekday | mailer.py:24 | the day of the week that `%A` names, always in 0..6 (0 is Monday), counted from Thursday 1970-01-01 |
| DateTimes.MarchYearLength | surveillance.py:64 | a March-to-February year has 366 days exactly when its February is in a Gregorian leap year, so day counting across years agrees with the calendar |
| DateTimes.MonthRollover | surveillance.py:64 | the day after the last day of a month (by the month's real length, February by leap year) is the first of the next month |
| DateTimes.YearRollover | surveillance.py:64 | 31 December is followed by 1 January of the next year |
| DateTimes.NextIsOneMicrosecondLater | surveillance.py:64 | the calendar successor of any instant short of `datetime.max` is exactly one microsecond later, so `ElapsedMicros` is the length of the `timedelta` `now - last_capture` |
| DateTimes.ElapsedSinceEpoch | surveillance.py:64 | the time elapsed since the epoch is the instant's own offset |
| DateTimes.SpacedStrictlyIncreasing | surveillance.py:64-65 | with a positive interval, instants each of which passed the gate against the previous one strictly increase, and all lie after the starting reference |
| DateTimes.LatestCons | surveillance.py:65 | after firing at `t` and then at `times`, the gate's reference instant is the one that firing at `times` alone, starting from `t`, would leave |
| ImagePaths.DateStamp | surveillance.py:83 | `%Y-%m-%d` is ten characters: four-digit year, dash, two-digit month, dash, two-digit day |
| ImagePaths.TimeStamp | surveillance.py:86 | `%H-%M-%S-%f` is fifteen characters: hour, minute, second in two digits and microsecond in six, dash-separated |
| ImagePaths.DateStampRoundTrip | surveillance.py:83 | parsing the date stamp gives back year, month and day |
| ImagePaths.TimeStampRoundTrip | surveillance.py:86 | parsing the time stamp gives back hour, minute, second and microsecond |
| ImagePaths.DayDirectory | surveillance.py:83-84 | the directory `_save_image` ensures exists: `base_path`, `/` and the date stamp |
| ImagePaths.ImagePath | surveillance.py:86-87 | the file written and returned: the day directory, `/`, the time stamp, `.` and `image_ext` |
| ImagePaths.ParseImagePath | surveillance.py:82-87 | the inverse of the locator format: accepts a string laid out as a locator for the given base path and extension, with fields forming a valid instant, and returns that instant |
| ImagePaths.DateStampOfParsed | surveillance.py:83 | a date stamp that parses to the year, month and day of an instant is that instant's date stamp |
| ImagePaths.TimeStampOfParsed | surveillance.py:86 | a time stamp that parses to the hour, minute, second and microsecond of an instant is that instant's time stamp |
| ImagePaths.ImagePathLayout | surveillance.py:84-87 | the locator is `base_path`, `/`, the date stamp (which together form the day directory), `/`, the time stamp, `.`, `image_ext`, at fixed offsets |
| ImagePaths.ImagePathRoundTrip | surveillance.py:82-87 | reading a locator back with the same base path and extension yields the capture instant |
| ImagePaths.ParseImagePathSound | surveillance.py:82-87 | every string the parser accepts is exactly the locator of the instant it returns; with `ImagePathRoundTrip`, locators and instants correspond one to one |
| ImagePaths.ImagePathInjective | surveillance.py:87 | two different capture instants never share a locator |
| ImagePaths.ImagePathInDayDirectory | surveillance.py:84-89 | the directory `makedirs` creates is the parent of the file written: the locator is that directory, `/`, and a last component with no `/` (for an extension without `/`) |
| Surveillance.Dispatch | surveillance.py:67-68 | the handler loop makes one `handle(image_path, now)` call per handler, so exactly as many calls as handlers |
| Surveillance.Capture | surveillance.py:65-68 | a capture: the frame saved under its locator in its day directory, then the handler calls |
| Surveillance.Fires | surveillance.py:53-64 | an iteration saves and dispatches when its frame is grabbed, a background exists, some contour reaches `min_area` and `min_interval` has elapsed since `last_capture` |
| Surveillance.Step | surveillance.py:29-74 | one iteration of the loop body: afterwards a background exists iff it existed before or this frame was grabbed; ESC can end the loop only on a grabbed frame after the first, with the preview on |
| Surveillance.Run | surveillance.py:28-74 | a session over a finite sequence of ticks: at most one iteration per tick, at least one if it ends by ESC or `stop()`, and one for every tick if the ticks run out first |
| Surveillance.RunEndsAtStop | surveillance.py:28-80 | the loop ends by `stop()` at the first iteration during which `stop()` ran, unless ESC ended that iteration: no earlier iteration saw a stop, and a session that used up every tick saw none |
| Surveillance.DetectMotion | surveillance.py:53-59 | after the contour loop `is_motion` holds iff some contour has area at least `min_area` (one exactly at `min_area` counts) |
| Surveillance.UngrabbedFrameChangesNothing | surveillance.py:29-31 | an iteration without a grabbed frame changes no state, calls no handler and does not leave the loop |
| Surveillance.FirstFrameOnlyInitialises | surveillance.py:38-40 | the first grabbed frame only sets the background: no motion test, no save, no handler call, no ESC check, `last_capture` kept |
| Surveillance.CaptureGate | surveillance.py:61-65 | with a background, an iteration has effects iff it shows motion and `min_interval` has elapsed since `last_capture`; `last_capture` becomes `now` exactly then; the loop breaks iff the preview is on and the key is ESC |
| Surveillance.FiredIterationDispatchesInOrder | surveillance.py:66-68 | a capture archives the frame at `now` under its locator first, then calls each handler exactly once, in list order, with that locator and `now` |
| Surveillance.DispatchInOrder | surveillance.py:67-68 | the handler loop makes one call per handler, the i-th call to the i-th handler, all with the same locator and instant |
| Surveillance.FirstMotionFiresAfterEpoch | surveillance.py:25 | with `last_capture` at the epoch, the first motion frame after the background fires iff `now` is at least `min_interval` after the epoch |
| Surveillance.NoIterationAfterStop | surveillance.py:79-80 | once `stop()` runs during an iteration, the session ends with that iteration: later frames are never read and the result is that of the prefix up to it |
| Surveillance.QuietSceneRecordsNothing | surveillance.py:53-56 | if no contour ever reaches `min_area`, a session saves nothing and calls no handler |
| Surveillance.BackgroundNeverReset | surveillance.py:38-40 | once set, the background stays set for the rest of the session |
| Surveillance.StepCaptures | surveillance.py:61-66 | an iteration archives the frame at `now`, under its locator, iff it fires, with the day directory recorded; otherwise it archives nothing |
| Surveillance.CaptureArchivesOnce | surveillance.py:66-68 | the save-and-dispatch sequence archives exactly one frame, at its instant and under its locator; handler calls archive nothing |
| Surveillance.CapturesSpaced | surveillance.py:64-65 | successive captures of a session, starting from its initial `last_capture`, are each at least `min_interval` apart, and the session ends with `last_capture` at the last capture |
| Surveillance.ArchivedPathsOfRun | surveillance.py:66 | the locators a session archives are, in order, the locators of its capture instants |
| Surveillance.NoImageOverwritten | surveillance.py:86-90 | with a positive `min_interval`, no session writes two frames to the same file |
| Surveillance.Camera.constructor | surveillance.py:16-18 | a new camera keeps its configuration and is not running |
| Surveillance.Camera.Stop | surveillance.py:79-80 | `stop` clears `_running` and changes nothing else |
| Surveillance.Camera.SaveImage | surveillance.py:82-92 | `_save_image` returns `<base_path>/<date>/<time>.<ext>` and records one archive of the frame at that instant, in the day directory |
| Surveillance.Camera.Notify | surveillance.py:67-68 | the handler loop appends exactly the in-order calls of every handler to the log |
| Surveillance.Camera.Iterate | surveillance.py:29-74 | one pass of the loop body moves the camera's background flag, `last_capture` and log exactly as `Step` says, and reports ESC as `Step` does |
| Surveillance.Camera.Loop | surveillance.py:28-74 | the `while self._running` loop ends in the state, with the log, the iteration count and the exit reason of `Run`; `_running` is false afterwards exactly when `stop()` ran during one of the iterations performed, which includes a last iteration that both ran `stop()` and read ESC; every end by `stop()` leaves it false |
| Surveillance.Camera.Start | surveillance.py:20-28 | `start` resets the background and sets `last_capture` to the epoch, sets `_running`, and runs the loop with the given handlers, ending as `Run` from a new session says; `_running` is false afterwards exactly when `stop()` ran during one of its iterations |
| Mail.Hour12 | mailer.py:24 | `%I` is an hour from 1 to 12 |
| Mail.ClockHourRoundTrip | mailer.py:24 | `%I` together with `%p` determines the hour of the day |
| Mail.SubjectStamp | mailer.py:23-24 | `strftime("%A %d %B %Y %I:%M:%S %p")` in the C locale: English day name, two-digit day, English month name, four-digit year, 12-hour clock with two-digit fields, `AM` or `PM` |
| Mail.Subject | mailer.py:23 | `Motion detected at ` followed by the formatted timestamp |
| Mail.Compose | mailer.py:26-31 | the message: the subject as header and as text part, From and To from the configuration, the image attached |
| Mail.MessageLayout | mailer.py:23-31 | the subject is `Motion detected at ` followed by the formatted timestamp; the text part repeats it; From and To are the configured addresses; the image is attached |
| Mail.SendStep | mailer.py:18-42 | one call's decision: a send is attempted iff `interval` has elapsed since `_last_send`, which becomes the timestamp when the attempt is delivered |
| Mail.SendAll | mailer.py:16-45 | a sequence of calls on one mailer, threading `_last_send` and recording the attempted events and the instants of successful sends |
| Mail.SendGate | mailer.py:16-45 | a call attempts a send iff `interval` has elapsed since `_last_send`; `_last_send` moves to the timestamp iff the attempt is made and succeeds |
| Mail.FirstCallEligible | mailer.py:14 | with `_last_send` at the epoch, the first call attempts a send iff its timestamp is at least `interval` after the epoch |
| Mail.GateRestartsAtDelivery | mailer.py:42 | after a successful send at `t1`, `_last_send` is `t1`, and a later call attempts a send iff `interval` has elapsed since `t1` |
| Mail.RetryAfterFailure | mailer.py:44-45 | a failed exchange leaves `_last_send` unchanged, so the next call is gated against the same instant |
| Mail.DeliveriesSpaced | mailer.py:18 | over any sequence of calls, successful sends are each at least `interval` after the previous one, the first counted from the initial `_last_send` |
| Mail.LastSendIsLastDelivery | mailer.py:42 | after any sequence of calls, `_last_send` is the instant of the last successful send, or its initial value if none succeeded |
| Mail.LastSendNeverDecreases | mailer.py:42 | with a non-negative interval, `_last_send` never moves back in time |
| Mail.AttemptsBounded | mailer.py:18-40 | every attempted send belongs to a call that was made; there are no more deliveries than attempts and no more attempts than calls |
| Mail.TwoEventsOneSecondApart | mailer.py:17-18 | for a fresh mailer and two deliverable events one second apart, a 10-second interval allows one attempt and a half-second interval allows two |
| Mail.Mailer.constructor | mailer.py:12-14 | a new mailer keeps its configuration, has `_last_send` at the epoch and has sent nothing |
| Mail.Mailer.SendMail | mailer.py:16-45 | `send_mail` attempts a send iff the interval has elapsed; it then hands exactly the composed message to the transport; it commits `_last_send` to the timestamp only on a successful exchange, as `SendStep` says |

## Left out

- Image processing is not modelled: grey conversion, blur, `accumulateWeighted`, `absdiff`, thresholding, dilation and contour finding are OpenCV calls. Each `Tick` supplies the contour areas directly. Binarisation with `THRESH_BINARY` keeps pixels strictly above `delta_thresh`, not pixels at or above it. This affects only the pixel pipeline, which is outside the model.
- The background model's contents (the running average, float `avg_frame`) are not modelled. The model records only whether a background exists.
- Contour areas are modelled as integers. OpenCV returns floats.
- Drawing and display are not modelled: `rectangle`, `putText`, `imshow`, `destroyAllWindows`. Only the ESC test on the `waitKey` result is kept, as `key % 256 == 27`. That equals `& 0xFF` for every integer, including `-1`.
- File-system effects are not modelled: `os.path.exists`, `os.makedirs` and `cv2.imwrite` become one `Archived` effect that records the directory and the path. The `open` of the image in `send_mail` and the MIME encoding of its bytes are not modelled: the attachment is the image path.
- Exceptions are not modelled. The model has no error from `makedirs` or `open`, and none from a handler, although in the source any of these ends `start` with an exception. SMTP failures other than `SMTPException` are not modelled either; the source would propagate them.
- The SMTP session is not modelled: connection, EHLO, STARTTLS, login and `sendmail` become one outcome, `Delivered` or `SmtpError`. The password and host configuration are not modelled.
- Surveillance.Camera.Loop: runs over a finite sequence of frames. The real loop may run for ever. The exit reason `Exhausted` stands for "still running when the supplied frames ran out".
- Surveillance.Camera.Loop: models a signal handler that calls `stop()` as happening during a given iteration (`Tick.stopRequested`). The flag is then observed at the top of the next iteration. Interleaving below the statement level is not modelled. A `stop()` between construction and line 27 is overwritten when `start` sets `_running`. This race is not modelled.
- Surveillance.Camera.Loop: leaving the loop on ESC keeps `_running` as it was, as the source does: true, unless `stop()` ran during that same last iteration. The model states this via `running <==> NoStopRequested(ticks[..iterations])`.
- `video.release()`, logging and the effect of `framerate` on the device are not modelled.
- `main` and the command line are not modelled: argument parsing, JSON configuration, defaults, signal registration and the choice of handlers.
- IntervalElapsed: intervals are held in integer microseconds. Python compares a float `total_seconds()` against a possibly float interval. Rounding errors of that float arithmetic are not modelled.
- ImagePaths.DateStamp: `%Y` is modelled as four zero-padded digits. Some C libraries print years below 1000 without padding.
- Mail.SubjectStamp: `%Y` is modelled as four zero-padded digits here too, with the same caveat for years below 1000.
- Mail.SubjectStamp: uses the C locale's English day and month names, the locale in force since the program never calls `setlocale`. Other locales are not modelled.
- Mail.Mailer.SendMail: returns whether a send was attempted. The source returns nothing. The extra result only exposes the gate's decision.
