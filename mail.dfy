/**
 * `Mailer`: the e-mail notification with its own rate limit.  An SMTP
 * exchange is reduced to its outcome, `Delivered` or `SmtpError` (an
 * `smtplib.SMTPException`, which the source logs and swallows).  `SendStep`
 * is the specification of one `send_mail` call; the `Mailer` class is the
 * stateful object, proved to follow it.
 */
module Mail {
  import opened Decimal
  import opened DateTimes

  /** The `email` configuration entries `send_mail` reads; the interval in microseconds. */
  datatype MailConfig = MailConfig(intervalMicros: int, fromAddr: string, toAddr: string)

  /** What is handed to the SMTP server: headers, the text part and the attached image. */
  datatype Message = Message(subject: string, fromAddr: string, toAddr: string,
                             text: string, attachment: string)

  datatype SmtpOutcome = Delivered | SmtpError

  // `strftime` names in the C locale, the one in force for LC_TIME since the
  // program never calls `locale.setlocale`.
  const WeekdayNames: seq<string> :=
    ["Monday", "Tuesday", "Wednesday", "Thursday", "Friday", "Saturday", "Sunday"]
  const MonthNames: seq<string> :=
    ["January", "February", "March", "April", "May", "June", "July",
     "August", "September", "October", "November", "December"]

  /** `%I`: the hour on a 12-hour clock. */
  function Hour12(hour: int): (h: int)
    requires 0 <= hour < 24
    ensures 1 <= h <= 12
  {
    if hour % 12 == 0 then 12 else hour % 12
  }

  /** `%p` */
  function Meridiem(hour: int): string {
    if hour < 12 then "AM" else "PM"
  }

  /** `timestamp.strftime("%A %d %B %Y %I:%M:%S %p")` */
  function SubjectStamp(t: DateTime): string {
    assert Pow10(2) == 100 && Pow10(4) == 10000;
    WeekdayNames[Weekday(t)] + " " + Padded(t.day, 2) + " " + MonthNames[t.month - 1] + " "
      + Padded(t.year, 4) + " " + Padded(Hour12(t.hour), 2) + ":" + Padded(t.minute, 2)
      + ":" + Padded(t.second, 2) + " " + Meridiem(t.hour)
  }

  const SubjectPrefix := "Motion detected at "

  function Subject(t: DateTime): string {
    SubjectPrefix + SubjectStamp(t)
  }

  /** The MIME message `send_mail` assembles: the subject is both the
      Subject header and the text part; the image is attached. */
  function Compose(cfg: MailConfig, imagePath: string, t: DateTime): Message {
    var subject := Subject(t);
    Message(subject, cfg.fromAddr, cfg.toAddr, subject, imagePath)
  }

  /** What one call decides: whether a message is handed to the SMTP
      server, and the new `_last_send`. */
  datatype SendResult = SendResult(lastSend: DateTime, attempted: bool)

  /** One `send_mail(image_path, timestamp)` call against `_last_send`, with
      the outcome the SMTP exchange would have.  The message itself is
      `Compose(cfg, image_path, timestamp)`; it does not affect the decision. */
  function SendStep(cfg: MailConfig, lastSend: DateTime, timestamp: DateTime, outcome: SmtpOutcome): SendResult {
    if IntervalElapsed(lastSend, timestamp, cfg.intervalMicros) then
      SendResult(if outcome == Delivered then timestamp else lastSend, true)
    else SendResult(lastSend, false)
  }

  /** One motion event reaching the mailer, and how its SMTP exchange would end. */
  datatype MailEvent = MailEvent(imagePath: string, timestamp: DateTime, outcome: SmtpOutcome)

  /** The record of a sequence of calls: the final `_last_send`, the calls
      that handed a message to the server, and the instants of those that
      succeeded. */
  datatype SendLog = SendLog(lastSend: DateTime, attempted: seq<MailEvent>, deliveredAt: seq<DateTime>)

  /** A sequence of `send_mail` calls. */
  function SendAll(cfg: MailConfig, lastSend: DateTime, events: seq<MailEvent>): SendLog
    decreases |events|
  {
    if events == [] then SendLog(lastSend, [], [])
    else
      var e := events[0];
      var r := SendStep(cfg, lastSend, e.timestamp, e.outcome);
      var rest := SendAll(cfg, r.lastSend, events[1..]);
      var delivered := r.attempted && e.outcome == Delivered;
      SendLog(rest.lastSend,
              (if r.attempted then [e] else []) + rest.attempted,
              (if delivered then [e.timestamp] else []) + rest.deliveredAt)
  }

  // ---------------------------------------------------------------------
  // Properties of one call.

  /** The message: fixed subject prefix, subject repeated as the text part,
      configured addresses, the image attached. */
  lemma MessageLayout(cfg: MailConfig, imagePath: string, t: DateTime)
    ensures var m := Compose(cfg, imagePath, t);
            && m.subject[..|SubjectPrefix|] == SubjectPrefix
            && m.subject[|SubjectPrefix|..] == SubjectStamp(t)
            && m.text == m.subject
            && m.fromAddr == cfg.fromAddr && m.toAddr == cfg.toAddr && m.attachment == imagePath
  {
  }

  /** `%I` with `%p` determine the hour of the day. */
  lemma ClockHourRoundTrip(hour: int)
    requires 0 <= hour < 24
    ensures Hour12(hour) % 12 + (if Meridiem(hour) == "PM" then 12 else 0) == hour
  {
  }

  /** The gate and the commit: a call attempts a send iff `interval` has
      elapsed since `_last_send`; `_last_send` moves, to the event's own
      timestamp, only when an attempted exchange succeeds. */
  lemma SendGate(cfg: MailConfig, lastSend: DateTime, timestamp: DateTime, outcome: SmtpOutcome)
    ensures var r := SendStep(cfg, lastSend, timestamp, outcome);
            var eligible := ElapsedMicros(lastSend, timestamp) >= cfg.intervalMicros;
            && (r.attempted <==> eligible)
            && r.lastSend == (if eligible && outcome == Delivered then timestamp else lastSend)
  {
  }

  /** `_last_send` starts at the epoch, whose offset is zero (`EpochIsZero`),
      so the first call attempts a send iff its timestamp is at least
      `interval` after the epoch. */
  lemma FirstCallEligible(cfg: MailConfig, timestamp: DateTime, outcome: SmtpOutcome)
    ensures SendStep(cfg, Epoch, timestamp, outcome).attempted <==> EpochMicros(timestamp) >= cfg.intervalMicros
  {
    ElapsedSinceEpoch(timestamp);
  }

  /** A successful send at `t1` restarts the gate there: a later call
      attempts a send iff `interval` has elapsed since `t1`. */
  lemma GateRestartsAtDelivery(cfg: MailConfig, lastSend: DateTime, t1: DateTime, t2: DateTime, o2: SmtpOutcome)
    requires SendStep(cfg, lastSend, t1, Delivered).attempted
    ensures var r1 := SendStep(cfg, lastSend, t1, Delivered);
            && r1.lastSend == t1
            && (SendStep(cfg, r1.lastSend, t2, o2).attempted <==> ElapsedMicros(t1, t2) >= cfg.intervalMicros)
  {
  }

  /** A failed exchange does not advance `_last_send`: the next call is
      judged against the same reference instant, so the next eligible
      event is tried again. */
  lemma RetryAfterFailure(cfg: MailConfig, lastSend: DateTime, t1: DateTime, t2: DateTime, o2: SmtpOutcome)
    ensures var r1 := SendStep(cfg, lastSend, t1, SmtpError);
            && r1.lastSend == lastSend
            && (SendStep(cfg, r1.lastSend, t2, o2).attempted <==> IntervalElapsed(lastSend, t2, cfg.intervalMicros))
  {
  }

  // ---------------------------------------------------------------------
  // Properties of a sequence of calls.

  /** How one leading call shapes the record of a sequence of calls. */
  lemma SendAllUnfold(cfg: MailConfig, lastSend: DateTime, events: seq<MailEvent>)
    requires events != []
    ensures var e := events[0];
            var r := SendStep(cfg, lastSend, e.timestamp, e.outcome);
            var rest := SendAll(cfg, r.lastSend, events[1..]);
            var all := SendAll(cfg, lastSend, events);
            && all.lastSend == rest.lastSend
            && (r.attempted && e.outcome == Delivered ==>
                  r.lastSend == e.timestamp
                  && IntervalElapsed(lastSend, e.timestamp, cfg.intervalMicros)
                  && all.deliveredAt == [e.timestamp] + rest.deliveredAt)
            && (!(r.attempted && e.outcome == Delivered) ==>
                  r.lastSend == lastSend && all.deliveredAt == rest.deliveredAt)
  {
  }

  /** Successful sends are spaced by at least `interval`, counted from the
      initial `_last_send`. */
  lemma {:induction false} DeliveriesSpaced(cfg: MailConfig, lastSend: DateTime, events: seq<MailEvent>)
    ensures Spaced(lastSend, SendAll(cfg, lastSend, events).deliveredAt, cfg.intervalMicros)
    decreases |events|
  {
    if events != [] {
      var e := events[0];
      var r := SendStep(cfg, lastSend, e.timestamp, e.outcome);
      DeliveriesSpaced(cfg, r.lastSend, events[1..]);
      SendAllUnfold(cfg, lastSend, events);
      if r.attempted && e.outcome == Delivered {
        SpacedCons(lastSend, e.timestamp, SendAll(cfg, r.lastSend, events[1..]).deliveredAt, cfg.intervalMicros);
      }
    }
  }

  /** After a sequence of calls, `_last_send` is the instant of the last
      successful send, or unchanged if none succeeded. */
  lemma {:induction false} LastSendIsLastDelivery(cfg: MailConfig, lastSend: DateTime, events: seq<MailEvent>)
    ensures var r := SendAll(cfg, lastSend, events);
            r.lastSend == Latest(lastSend, r.deliveredAt)
    decreases |events|
  {
    if events != [] {
      var e := events[0];
      var r := SendStep(cfg, lastSend, e.timestamp, e.outcome);
      LastSendIsLastDelivery(cfg, r.lastSend, events[1..]);
      SendAllUnfold(cfg, lastSend, events);
      LatestCons(lastSend, e.timestamp, SendAll(cfg, r.lastSend, events[1..]).deliveredAt);
    }
  }

  /** With a non-negative interval `_last_send` never moves backwards. */
  lemma {:induction false} LastSendNeverDecreases(cfg: MailConfig, lastSend: DateTime, events: seq<MailEvent>)
    requires cfg.intervalMicros >= 0
    ensures EpochMicros(lastSend) <= EpochMicros(SendAll(cfg, lastSend, events).lastSend)
    decreases |events|
  {
    if events != [] {
      var e := events[0];
      var r := SendStep(cfg, lastSend, e.timestamp, e.outcome);
      LastSendNeverDecreases(cfg, r.lastSend, events[1..]);
    }
  }

  /** Every attempted call is one of the calls made, and there are never
      more deliveries than attempts, nor more attempts than calls. */
  lemma {:induction false} AttemptsBounded(cfg: MailConfig, lastSend: DateTime, events: seq<MailEvent>)
    ensures var r := SendAll(cfg, lastSend, events);
            && |r.deliveredAt| <= |r.attempted| <= |events|
            && forall i :: 0 <= i < |r.attempted| ==> r.attempted[i] in events
    decreases |events|
  {
    if events != [] {
      var e := events[0];
      var r := SendStep(cfg, lastSend, e.timestamp, e.outcome);
      AttemptsBounded(cfg, r.lastSend, events[1..]);
    }
  }

  /** Two motion events one second apart, both deliverable, reaching a
      fresh mailer: with a 10-second interval only the first is sent; with
      half a second, both. */
  lemma TwoEventsOneSecondApart(from: string, to: string, path: string)
    ensures var e1 := MailEvent(path, Fields(2024, 5, 17, 12, 0, 0, 0), Delivered);
            var e2 := MailEvent(path, Fields(2024, 5, 17, 12, 0, 1, 0), Delivered);
            && |SendAll(MailConfig(10_000_000, from, to), Epoch, [e1, e2]).attempted| == 1
            && |SendAll(MailConfig(500_000, from, to), Epoch, [e1, e2]).attempted| == 2
  {
    EpochIsZero();
    TwoEventsFromOrigin(Epoch, from, to, path);
  }

  lemma TwoEventsFromOrigin(origin: DateTime, from: string, to: string, path: string)
    requires EpochMicros(origin) == 0
    ensures var e1 := MailEvent(path, Fields(2024, 5, 17, 12, 0, 0, 0), Delivered);
            var e2 := MailEvent(path, Fields(2024, 5, 17, 12, 0, 1, 0), Delivered);
            && |SendAll(MailConfig(10_000_000, from, to), origin, [e1, e2]).attempted| == 1
            && |SendAll(MailConfig(500_000, from, to), origin, [e1, e2]).attempted| == 2
  {
    var t1: DateTime := Fields(2024, 5, 17, 12, 0, 0, 0);
    var t2: DateTime := Fields(2024, 5, 17, 12, 0, 1, 0);
    assert 2024 / 400 == 5 && 24 / 4 == 6 && 24 / 100 == 0;
    assert MarchYearStart(2024) == 739251 && MonthOffset(5) == 61;
    assert DaysFromCivil(2024, 5, 17) == 19860;
    MicrosExpanded(t1);
    MicrosExpanded(t2);
    assert EpochMicros(t1) == 1_715_947_200_000_000;
    assert EpochMicros(t2) == EpochMicros(t1) + 1_000_000;
    var e1 := MailEvent(path, t1, Delivered);
    var e2 := MailEvent(path, t2, Delivered);
    assert [e1, e2][0] == e1 && [e1, e2][1..] == [e2] && [e2][1..] == [];
    var slow := MailConfig(10_000_000, from, to);
    assert SendStep(slow, origin, t1, Delivered).lastSend == t1;
    assert !SendStep(slow, t1, t2, Delivered).attempted;
    assert |SendAll(slow, t1, [e2]).attempted| == 0;
    var fast := MailConfig(500_000, from, to);
    assert SendStep(fast, origin, t1, Delivered).lastSend == t1;
    assert SendStep(fast, t1, t2, Delivered).attempted;
    assert |SendAll(fast, t1, [e2]).attempted| == 1;
  }

  // ---------------------------------------------------------------------
  // The stateful object.

  class Mailer {
    const config: MailConfig
    var lastSend: DateTime
    /** Messages handed to the SMTP transport, in order. */
    ghost var outbox: seq<Message>

    /** `Mailer.__init__`: `_last_send` is the epoch. */
    constructor (config: MailConfig)
      ensures this.config == config && lastSend == Epoch && outbox == []
    {
      this.config := config;
      lastSend := Epoch;
      outbox := [];
    }

    /** `Mailer.send_mail(image_path, timestamp)`; `outcome` is how the SMTP
        exchange would end.  Returns whether a send was attempted. */
    method SendMail(imagePath: string, timestamp: DateTime, outcome: SmtpOutcome) returns (attempted: bool)
      modifies this`lastSend, this`outbox
      ensures attempted <==> IntervalElapsed(old(lastSend), timestamp, config.intervalMicros)
      ensures lastSend == (if attempted && outcome == Delivered then timestamp else old(lastSend))
      ensures outbox == old(outbox) + (if attempted then [Compose(config, imagePath, timestamp)] else [])
      ensures SendStep(config, old(lastSend), timestamp, outcome) == SendResult(lastSend, attempted)
    {
      attempted := IntervalElapsed(lastSend, timestamp, config.intervalMicros);
      if attempted {
        var subject := Subject(timestamp);
        var message := Message(subject, config.fromAddr, config.toAddr, subject, imagePath);
        outbox := outbox + [message];
        if outcome == Delivered {
          lastSend := timestamp;
        }
        // on SmtpError the exception is logged and `_last_send` is kept
      }
    }
  }
}
