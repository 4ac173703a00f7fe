/**
 * The capture loop of `Camera.start` and `Camera.stop`.
 *
 * OpenCV is an oracle: for each iteration a `Tick` says whether a frame was
 * grabbed, what the clock read, the areas of the contours OpenCV found in the
 * thresholded difference image, which key `waitKey` returned and whether a
 * signal handler called `stop()` while the iteration ran.  The pure functions
 * `Step` and `Run` are the specification of one iteration and of a whole
 * session; the `Camera` class is the imperative loop, proved to follow them.
 *
 * Handlers are values of an abstract type `H`; calling `handler.handle(path,
 * now)` is recorded as a `Handled` effect.  The program's only handler,
 * `Mailer`, defines `send_mail` but no `handle`, so in the program as written
 * that call raises `AttributeError` on the first capture with e-mail enabled;
 * the model dispatches through the abstract `handle` operation the loop
 * expects.
 */
module Surveillance {
  import opened DateTimes
  import opened ImagePaths

  /** The configuration entries the loop reads; intervals in microseconds. */
  datatype Config = Config(minArea: int, minIntervalMicros: int,
                           basePath: string, imageExt: string, showVideo: bool)

  /** What the outside world supplies in one iteration of the loop. */
  datatype Tick = Tick(grabbed: bool, now: DateTime, contourAreas: seq<int>,
                       key: int, stopRequested: bool)

  /** Observable effects of the loop, in the order they happen. */
  datatype Effect<H> =
    | Archived(at: DateTime, directory: string, path: string)  // `_save_image`: makedirs + imwrite
    | Handled(handler: H, path: string, at: DateTime)         // `handler.handle(image_path, now)`

  /** The loop's own state: whether `avg_frame` is set, and `last_capture`. */
  datatype Session = Session(backgroundReady: bool, lastCapture: DateTime)

  /** State at the top of `start`: no background yet, last capture at the epoch. */
  const NewSession: Session := Session(false, Epoch)

  datatype StepResult<H> = StepResult(next: Session, effects: seq<Effect<H>>, escape: bool)

  /** Why a session ended: `stop()` was called, ESC was pressed, or the
      (finite) sequence of ticks ran out while the loop was still running. */
  datatype Exit = Stopped | Escaped | Exhausted

  datatype RunResult<H> = RunResult(last: Session, effects: seq<Effect<H>>, iterations: nat, exit: Exit)

  /** A frame shows motion when some contour is at least `minArea` large. */
  predicate HasMotion(areas: seq<int>, minArea: int) {
    exists i :: 0 <= i < |areas| && areas[i] >= minArea
  }

  /** `cv2.waitKey(10) & 0xFF == 27` with the preview window shown. */
  predicate EscPressed(cfg: Config, key: int) {
    cfg.showVideo && key % 256 == 27
  }

  /** Calling every handler, in list order, with the same locator and instant. */
  function Dispatch<H>(handlers: seq<H>, path: string, at: DateTime): (r: seq<Effect<H>>)
    ensures |r| == |handlers|
    decreases |handlers|
  {
    if handlers == [] then [] else [Handled(handlers[0], path, at)] + Dispatch(handlers[1..], path, at)
  }

  /** Saving the frame, then notifying the handlers. */
  function Capture<H>(cfg: Config, handlers: seq<H>, now: DateTime): seq<Effect<H>> {
    var path := ImagePath(cfg.basePath, now, cfg.imageExt);
    [Archived(now, DayDirectory(cfg.basePath, now), path)] + Dispatch(handlers, path, now)
  }

  /** Whether the iteration saves and dispatches. */
  predicate Fires(cfg: Config, s: Session, t: Tick) {
    t.grabbed && s.backgroundReady && HasMotion(t.contourAreas, cfg.minArea)
    && IntervalElapsed(s.lastCapture, t.now, cfg.minIntervalMicros)
  }

  /** One iteration of the `while self._running` loop. */
  function Step<H>(cfg: Config, handlers: seq<H>, s: Session, t: Tick): (r: StepResult<H>)
    ensures r.next.backgroundReady == (s.backgroundReady || t.grabbed)
    ensures r.escape ==> t.grabbed && s.backgroundReady && cfg.showVideo
  {
    if !t.grabbed then StepResult(s, [], false)
    else if !s.backgroundReady then StepResult(Session(true, s.lastCapture), [], false)
    else if Fires(cfg, s, t) then StepResult(Session(true, t.now), Capture(cfg, handlers, t.now), EscPressed(cfg, t.key))
    else StepResult(s, [], EscPressed(cfg, t.key))
  }

  /** A session over a finite prefix of the frame source. */
  function Run<H>(cfg: Config, handlers: seq<H>, s: Session, ticks: seq<Tick>): (r: RunResult<H>)
    ensures r.iterations <= |ticks|
    ensures r.exit == Exhausted ==> r.iterations == |ticks|
    ensures r.exit != Exhausted ==> 1 <= r.iterations
    decreases |ticks|
  {
    if ticks == [] then RunResult(s, [], 0, Exhausted)
    else
      var r := Step(cfg, handlers, s, ticks[0]);
      if r.escape then RunResult(r.next, r.effects, 1, Escaped)
      else if ticks[0].stopRequested then RunResult(r.next, r.effects, 1, Stopped)
      else Then(r.effects, Run(cfg, handlers, r.next, ticks[1..]))
  }

  /** `r`, preceded by one iteration that produced `effects`. */
  function Then<H>(effects: seq<Effect<H>>, r: RunResult<H>): RunResult<H> {
    RunResult(r.last, effects + r.effects, 1 + r.iterations, r.exit)
  }

  /** The instants at which frames were archived. */
  function CaptureInstants<H>(effects: seq<Effect<H>>): seq<DateTime>
    decreases |effects|
  {
    if effects == [] then []
    else (if effects[0].Archived? then [effects[0].at] else []) + CaptureInstants(effects[1..])
  }

  /** The locators of the archived frames. */
  function ArchivedPaths<H>(effects: seq<Effect<H>>): seq<string>
    decreases |effects|
  {
    if effects == [] then []
    else (if effects[0].Archived? then [effects[0].path] else []) + ArchivedPaths(effects[1..])
  }

  /** Every archive effect saved its frame under the locator of its instant. */
  predicate ArchivesWellFormed<H>(cfg: Config, effects: seq<Effect<H>>) {
    forall i :: 0 <= i < |effects| && effects[i].Archived? ==>
      && effects[i].path == ImagePath(cfg.basePath, effects[i].at, cfg.imageExt)
      && effects[i].directory == DayDirectory(cfg.basePath, effects[i].at)
  }

  // ---------------------------------------------------------------------
  // The contour test, as the source's `for contour in contours` loop.

  /** `is_motion` after the contour loop: true iff some contour has area at
      least `minArea` (a contour of exactly `minArea` counts). */
  method DetectMotion(areas: seq<int>, minArea: int) returns (isMotion: bool)
    ensures isMotion <==> exists i :: 0 <= i < |areas| && areas[i] >= minArea
  {
    isMotion := false;
    for k := 0 to |areas|
      invariant isMotion <==> exists i :: 0 <= i < k && areas[i] >= minArea
    {
      if areas[k] < minArea {
        continue;
      }
      isMotion := true;
    }
  }

  // ---------------------------------------------------------------------
  // Properties of one iteration.

  /** A frame that is not grabbed changes nothing and calls nobody. */
  lemma UngrabbedFrameChangesNothing<H>(cfg: Config, handlers: seq<H>, s: Session, t: Tick)
    requires !t.grabbed
    ensures Step(cfg, handlers, s, t) == StepResult(s, [], false)
  {
  }

  /** The first grabbed frame only initialises the background: no motion
      test, no save, no dispatch, no ESC check, `last_capture` kept. */
  lemma FirstFrameOnlyInitialises<H>(cfg: Config, handlers: seq<H>, s: Session, t: Tick)
    requires t.grabbed && !s.backgroundReady
    ensures Step(cfg, handlers, s, t) == StepResult(Session(true, s.lastCapture), [], false)
  {
  }

  /** The gate: an iteration with a background saves iff it shows motion
      and `min_interval` has elapsed; `last_capture` moves to `now` exactly then. */
  lemma CaptureGate<H>(cfg: Config, handlers: seq<H>, s: Session, t: Tick)
    requires t.grabbed && s.backgroundReady
    ensures var r := Step(cfg, handlers, s, t);
            var fire := HasMotion(t.contourAreas, cfg.minArea)
                        && ElapsedMicros(s.lastCapture, t.now) >= cfg.minIntervalMicros;
            && r.next.backgroundReady
            && (r.effects != [] <==> fire)
            && r.next.lastCapture == (if fire then t.now else s.lastCapture)
            && r.escape == (cfg.showVideo && t.key % 256 == 27)
  {
  }

  /** A fire produces exactly one locator: one archive of the frame at `now`,
      then exactly one call per handler, in list order, each with that
      locator and that instant. */
  lemma FiredIterationDispatchesInOrder<H>(cfg: Config, handlers: seq<H>, s: Session, t: Tick)
    requires Fires(cfg, s, t)
    ensures var r := Step(cfg, handlers, s, t);
            var path := ImagePath(cfg.basePath, t.now, cfg.imageExt);
            && |r.effects| == 1 + |handlers|
            && r.effects[0] == Archived(t.now, DayDirectory(cfg.basePath, t.now), path)
            && forall i :: 0 <= i < |handlers| ==> r.effects[1 + i] == Handled(handlers[i], path, t.now)
  {
    DispatchInOrder(handlers, ImagePath(cfg.basePath, t.now, cfg.imageExt), t.now);
  }

  /** After the first frame of a session (background set, `last_capture` at the
      epoch), a motion frame fires iff `now - epoch >= min_interval`. */
  lemma FirstMotionFiresAfterEpoch<H>(cfg: Config, handlers: seq<H>, t: Tick)
    requires t.grabbed && HasMotion(t.contourAreas, cfg.minArea)
    ensures Fires(cfg, Session(true, Epoch), t) <==> EpochMicros(t.now) >= cfg.minIntervalMicros
  {
    ElapsedSinceEpoch(t.now);
  }

  lemma {:induction false} DispatchInOrder<H>(handlers: seq<H>, path: string, at: DateTime)
    ensures |Dispatch(handlers, path, at)| == |handlers|
    ensures forall i :: 0 <= i < |handlers| ==> Dispatch(handlers, path, at)[i] == Handled(handlers[i], path, at)
    decreases |handlers|
  {
    if handlers != [] {
      DispatchInOrder(handlers[1..], path, at);
    }
  }

  lemma {:induction false} DispatchAppend<H>(a: seq<H>, b: seq<H>, path: string, at: DateTime)
    ensures Dispatch(a + b, path, at) == Dispatch(a, path, at) + Dispatch(b, path, at)
    decreases |a|
  {
    if a != [] {
      assert (a + b)[0] == a[0] && (a + b)[1..] == a[1..] + b;
      DispatchAppend(a[1..], b, path, at);
      calc {
        Dispatch(a + b, path, at);
        [Handled(a[0], path, at)] + Dispatch(a[1..] + b, path, at);
        [Handled(a[0], path, at)] + (Dispatch(a[1..], path, at) + Dispatch(b, path, at));
        ([Handled(a[0], path, at)] + Dispatch(a[1..], path, at)) + Dispatch(b, path, at);
      }
    } else {
      assert a + b == b;
    }
  }

  // ---------------------------------------------------------------------
  // Properties of a session.

  /** `stop()` ends the loop after the iteration it happened in: ticks after
      it are never looked at. */
  lemma {:induction false} NoIterationAfterStop<H>(cfg: Config, handlers: seq<H>, s: Session, ticks: seq<Tick>, k: nat)
    requires k < |ticks| && ticks[k].stopRequested
    ensures var r := Run(cfg, handlers, s, ticks);
            && r == Run(cfg, handlers, s, ticks[..k + 1])
            && r.iterations <= k + 1
            && r.exit != Exhausted
    decreases k
  {
    if k > 0 {
      var r := Step(cfg, handlers, s, ticks[0]);
      if !r.escape && !ticks[0].stopRequested {
        assert ticks[1..][..k] == ticks[..k + 1][1..];
        NoIterationAfterStop(cfg, handlers, r.next, ticks[1..], k - 1);
      }
    }
  }

  /** A scene in which no contour ever reaches `min_area` records nothing
      and calls no handler, however long the session. */
  lemma {:induction false} QuietSceneRecordsNothing<H>(cfg: Config, handlers: seq<H>, s: Session, ticks: seq<Tick>)
    requires forall k, i :: 0 <= k < |ticks| && 0 <= i < |ticks[k].contourAreas| ==> ticks[k].contourAreas[i] < cfg.minArea
    ensures Run(cfg, handlers, s, ticks).effects == []
    decreases |ticks|
  {
    if ticks != [] {
      var r := Step(cfg, handlers, s, ticks[0]);
      assert !HasMotion(ticks[0].contourAreas, cfg.minArea);
      QuietSceneRecordsNothing(cfg, handlers, r.next, ticks[1..]);
    }
  }

  /** Once the background exists it is never reset during the session. */
  lemma {:induction false} BackgroundNeverReset<H>(cfg: Config, handlers: seq<H>, s: Session, ticks: seq<Tick>)
    requires s.backgroundReady
    ensures Run(cfg, handlers, s, ticks).last.backgroundReady
    decreases |ticks|
  {
    if ticks != [] {
      var r := Step(cfg, handlers, s, ticks[0]);
      BackgroundNeverReset(cfg, handlers, r.next, ticks[1..]);
    }
  }

  lemma {:induction false} CaptureInstantsAppend<H>(a: seq<Effect<H>>, b: seq<Effect<H>>)
    ensures CaptureInstants(a + b) == CaptureInstants(a) + CaptureInstants(b)
    ensures ArchivedPaths(a + b) == ArchivedPaths(a) + ArchivedPaths(b)
    decreases |a|
  {
    if a != [] {
      assert (a + b)[0] == a[0] && (a + b)[1..] == a[1..] + b;
      CaptureInstantsAppend(a[1..], b);
      var t: seq<DateTime> := if a[0].Archived? then [a[0].at] else [];
      var p: seq<string> := if a[0].Archived? then [a[0].path] else [];
      assert CaptureInstants(a + b) == t + (CaptureInstants(a[1..]) + CaptureInstants(b));
      assert ArchivedPaths(a + b) == p + (ArchivedPaths(a[1..]) + ArchivedPaths(b));
    } else {
      assert a + b == b;
    }
  }

  lemma {:induction false} DispatchArchivesNothing<H>(handlers: seq<H>, path: string, at: DateTime)
    ensures CaptureInstants(Dispatch(handlers, path, at)) == []
    ensures ArchivedPaths(Dispatch(handlers, path, at)) == []
    decreases |handlers|
  {
    if handlers != [] {
      DispatchArchivesNothing(handlers[1..], path, at);
    }
  }

  /** The archives of one iteration: the frame at `now` when it fires, none otherwise. */
  lemma StepCaptures<H>(cfg: Config, handlers: seq<H>, s: Session, t: Tick)
    ensures var r := Step(cfg, handlers, s, t);
            && CaptureInstants(r.effects) == (if Fires(cfg, s, t) then [t.now] else [])
            && ArchivedPaths(r.effects) == (if Fires(cfg, s, t) then [ImagePath(cfg.basePath, t.now, cfg.imageExt)] else [])
            && r.next.lastCapture == (if Fires(cfg, s, t) then t.now else s.lastCapture)
            && ArchivesWellFormed(cfg, r.effects)
  {
    if Fires(cfg, s, t) {
      CaptureArchivesOnce(cfg, handlers, t.now);
    }
  }

  /** A capture archives exactly one frame, under the locator of its instant. */
  lemma CaptureArchivesOnce<H>(cfg: Config, handlers: seq<H>, now: DateTime)
    ensures var e := Capture(cfg, handlers, now);
            && CaptureInstants(e) == [now]
            && ArchivedPaths(e) == [ImagePath(cfg.basePath, now, cfg.imageExt)]
            && ArchivesWellFormed(cfg, e)
  {
    var path := ImagePath(cfg.basePath, now, cfg.imageExt);
    var x: Effect<H> := Archived(now, DayDirectory(cfg.basePath, now), path);
    var rest := Dispatch(handlers, path, now);
    CaptureInstantsAppend([x], rest);
    DispatchArchivesNothing(handlers, path, now);
    DispatchInOrder(handlers, path, now);
    ArchiveThenNone(cfg, x, rest);
  }

  lemma ArchiveThenNone<H>(cfg: Config, x: Effect<H>, rest: seq<Effect<H>>)
    requires x.Archived? && x.path == ImagePath(cfg.basePath, x.at, cfg.imageExt)
    requires x.directory == DayDirectory(cfg.basePath, x.at)
    requires forall i :: 0 <= i < |rest| ==> !rest[i].Archived?
    ensures ArchivesWellFormed(cfg, [x] + rest)
  {
    var e := [x] + rest;
    forall i | 0 < i < |e|
      ensures !e[i].Archived?
    {
      assert e[i] == rest[i - 1];
    }
  }

  /** Rate limit of a session: successive captures, starting from the
      session's `last_capture`, are each at least `min_interval` apart, and
      the session ends with `last_capture` at its last capture. */
  lemma {:induction false} CapturesSpaced<H>(cfg: Config, handlers: seq<H>, s: Session, ticks: seq<Tick>)
    ensures var r := Run(cfg, handlers, s, ticks);
            var times := CaptureInstants(r.effects);
            && Spaced(s.lastCapture, times, cfg.minIntervalMicros)
            && r.last.lastCapture == Latest(s.lastCapture, times)
    decreases |ticks|
  {
    if ticks != [] {
      var r := Step(cfg, handlers, s, ticks[0]);
      StepCaptures(cfg, handlers, s, ticks[0]);
      if !r.escape && !ticks[0].stopRequested {
        var rest := Run(cfg, handlers, r.next, ticks[1..]);
        CapturesSpaced(cfg, handlers, r.next, ticks[1..]);
        CaptureInstantsAppend(r.effects, rest.effects);
        var times := CaptureInstants(r.effects + rest.effects);
        if Fires(cfg, s, ticks[0]) {
          assert times == [ticks[0].now] + CaptureInstants(rest.effects);
          SpacedCons(s.lastCapture, ticks[0].now, CaptureInstants(rest.effects), cfg.minIntervalMicros);
          LatestCons(s.lastCapture, ticks[0].now, CaptureInstants(rest.effects));
        } else {
          assert times == CaptureInstants(rest.effects);
        }
      }
    }
  }

  /** `f` applied to each element of `xs`, in order. */
  function Map<A, B>(f: A -> B, xs: seq<A>): seq<B>
    decreases |xs|
  {
    if xs == [] then [] else [f(xs[0])] + Map(f, xs[1..])
  }

  lemma {:induction false} MapAppend<A, B>(f: A -> B, xs: seq<A>, ys: seq<A>)
    ensures Map(f, xs + ys) == Map(f, xs) + Map(f, ys)
    decreases |xs|
  {
    if xs == [] {
      assert xs + ys == ys;
    } else {
      assert (xs + ys)[0] == xs[0] && (xs + ys)[1..] == xs[1..] + ys;
      MapAppend(f, xs[1..], ys);
    }
  }

  lemma {:induction false} MapPointwise<A, B>(f: A -> B, xs: seq<A>)
    ensures |Map(f, xs)| == |xs|
    ensures forall i :: 0 <= i < |xs| ==> Map(f, xs)[i] == f(xs[i])
    decreases |xs|
  {
    if xs != [] {
      MapPointwise(f, xs[1..]);
    }
  }

  /** The locator of a frame captured at a given instant. */
  function LocatorOf(cfg: Config): DateTime -> string {
    (t: DateTime) => ImagePath(cfg.basePath, t, cfg.imageExt)
  }

  /** Every frame a session archives is saved under the locator of its instant,
      in order: the archived locators are those of the capture instants. */
  lemma {:induction false} ArchivedPathsOfRun<H>(cfg: Config, handlers: seq<H>, s: Session, ticks: seq<Tick>)
    ensures var r := Run(cfg, handlers, s, ticks);
            ArchivedPaths(r.effects) == Map(LocatorOf(cfg), CaptureInstants(r.effects))
    decreases |ticks|
  {
    if ticks != [] {
      var r := Step(cfg, handlers, s, ticks[0]);
      StepCaptures(cfg, handlers, s, ticks[0]);
      if !r.escape && !ticks[0].stopRequested {
        var rest := Run(cfg, handlers, r.next, ticks[1..]);
        ArchivedPathsOfRun(cfg, handlers, r.next, ticks[1..]);
        CaptureInstantsAppend(r.effects, rest.effects);
        MapAppend(LocatorOf(cfg), CaptureInstants(r.effects), CaptureInstants(rest.effects));
      }
    }
  }

  /** With a positive `min_interval`, no session ever writes two frames to
      the same file. */
  lemma NoImageOverwritten<H>(cfg: Config, handlers: seq<H>, s: Session, ticks: seq<Tick>)
    requires cfg.minIntervalMicros > 0
    ensures var paths := ArchivedPaths(Run(cfg, handlers, s, ticks).effects);
            forall i, j :: 0 <= i < j < |paths| ==> paths[i] != paths[j]
  {
    var r := Run(cfg, handlers, s, ticks);
    var times := CaptureInstants(r.effects);
    var paths := ArchivedPaths(r.effects);
    CapturesSpaced(cfg, handlers, s, ticks);
    ArchivedPathsOfRun(cfg, handlers, s, ticks);
    MapPointwise(LocatorOf(cfg), times);
    SpacedStrictlyIncreasing(s.lastCapture, times, cfg.minIntervalMicros);
    forall i, j | 0 <= i < j < |paths|
      ensures paths[i] != paths[j]
    {
      ImagePathInjective(cfg.basePath, times[i], times[j], cfg.imageExt);
    }
  }

  // ---------------------------------------------------------------------
  // The imperative loop.

  class Camera<H> {
    const config: Config
    var running: bool
    var backgroundReady: bool
    var lastCapture: DateTime
    var handlers: seq<H>
    ghost var log: seq<Effect<H>>

    function CurrentSession(): Session
      reads this
    {
      Session(backgroundReady, lastCapture)
    }

    constructor (config: Config)
      ensures this.config == config && !running && log == []
    {
      this.config := config;
      running := false;
      backgroundReady := false;
      lastCapture := Epoch;
      handlers := [];
      log := [];
    }

    /** `Camera.stop`: the loop sees the flag at the top of its next iteration. */
    method Stop()
      modifies this`running
      ensures !running
    {
      running := false;
    }

    /** `Camera._save_image`, reduced to the locator it builds and returns. */
    method SaveImage(now: DateTime) returns (path: string)
      modifies this`log
      ensures path == ImagePath(config.basePath, now, config.imageExt)
      ensures log == old(log) + [Archived(now, DayDirectory(config.basePath, now), path)]
    {
      var ymd := DateStamp(now);
      var basePath := config.basePath + "/" + ymd;
      var fileName := TimeStamp(now);
      path := basePath + "/" + fileName + "." + config.imageExt;
      log := log + [Archived(now, basePath, path)];
    }

    /** `for handler in motion_handlers: handler.handle(image_path, now)` */
    method Notify(path: string, now: DateTime)
      modifies this`log
      ensures log == old(log) + Dispatch(handlers, path, now)
    {
      for k := 0 to |handlers|
        invariant log == old(log) + Dispatch(handlers[..k], path, now)
      {
        DispatchAppend(handlers[..k], [handlers[k]], path, now);
        assert handlers[..k + 1] == handlers[..k] + [handlers[k]];
        log := log + [Handled(handlers[k], path, now)];
      }
      assert handlers[..|handlers|] == handlers;
    }

    /** The body of the `while self._running` loop for one tick; the early
        returns are the source's `continue` statements.  Returns whether the
        loop breaks on ESC. */
    method Iterate(t: Tick) returns (escape: bool)
      modifies this`backgroundReady, this`lastCapture, this`log
      ensures var r := Step(config, handlers, old(CurrentSession()), t);
              CurrentSession() == r.next && log == old(log) + r.effects && escape == r.escape
    {
      escape := false;
      if !t.grabbed {
        return;
      }
      var now := t.now;
      if !backgroundReady {
        backgroundReady := true;
        return;
      }
      ghost var before := log;
      var isMotion := DetectMotion(t.contourAreas, config.minArea);
      if isMotion {
        if IntervalElapsed(lastCapture, now, config.minIntervalMicros) {
          lastCapture := now;
          var path := SaveImage(now);
          Notify(path, now);
          AppendAssociative(before, [Archived(now, DayDirectory(config.basePath, now), path)], Dispatch(handlers, path, now));
        }
      }
      escape := config.showVideo && t.key % 256 == 27;
    }

    /** `Camera.start(motion_handlers)` over a finite prefix `ticks` of the
        frame source: reset `avg_frame` and `last_capture`, set `_running`,
        run the loop.  Returns why the loop ended and how many iterations ran. */
    method Start(motionHandlers: seq<H>, ticks: seq<Tick>) returns (exit: Exit, iterations: nat)
      modifies this
      ensures handlers == motionHandlers
      ensures var r := Run(config, motionHandlers, NewSession, ticks);
              && CurrentSession() == r.last && log == old(log) + r.effects
              && exit == r.exit && iterations == r.iterations
      ensures iterations <= |ticks|
      ensures running <==> NoStopRequested(ticks[..iterations])
      ensures exit == Stopped ==> !running
    {
      handlers := motionHandlers;
      backgroundReady, lastCapture := false, Epoch;
      running := true;
      exit, iterations := Loop(ticks);
    }

    /** The `while self._running` loop, from whatever state it is entered in. */
    method Loop(ticks: seq<Tick>) returns (exit: Exit, iterations: nat)
      requires running
      modifies this`running, this`backgroundReady, this`lastCapture, this`log
      ensures var r := Run(config, handlers, old(CurrentSession()), ticks);
              && CurrentSession() == r.last && log == old(log) + r.effects
              && exit == r.exit && iterations == r.iterations
      ensures iterations <= |ticks|
      ensures running <==> NoStopRequested(ticks[..iterations])
      ensures exit == Stopped ==> !running
    {
      ghost var target := Run(config, handlers, CurrentSession(), ticks);
      ghost var done: seq<Effect<H>> := [];
      exit, iterations := Exhausted, 0;
      while running && iterations < |ticks|
        invariant iterations <= |ticks|
        invariant running <==> NoStopRequested(ticks[..iterations])
        invariant log == old(log) + done
        invariant running ==> target == Prefixed(done, iterations, Run(config, handlers, CurrentSession(), ticks[iterations..]))
        invariant !running ==> target == RunResult(CurrentSession(), done, iterations, Stopped)
        decreases |ticks| - iterations
      {
        var tick := ticks[iterations];
        ghost var step := Step(config, handlers, CurrentSession(), tick);
        PrefixedStep(config, handlers, CurrentSession(), ticks, iterations, done);
        var escape := Iterate(tick);
        AppendAssociative(old(log), done, step.effects);
        done := done + step.effects;
        NoStopRequestedSnoc(ticks, iterations);
        iterations := iterations + 1;
        if tick.stopRequested {
          Stop();  // a signal handler ran during this iteration
        }
        if escape {
          exit := Escaped;
          break;
        }
      }
      if exit == Escaped {
      } else if !running {
        exit := Stopped;
      } else {
        assert ticks[iterations..] == [];
      }
    }
  }

  /** No `stop()` ran during any of `ticks`. */
  predicate NoStopRequested(ticks: seq<Tick>)
  {
    forall i :: 0 <= i < |ticks| ==> !ticks[i].stopRequested
  }

  lemma NoStopRequestedSnoc(ticks: seq<Tick>, k: nat)
    requires k < |ticks|
    ensures NoStopRequested(ticks[..k + 1]) <==> NoStopRequested(ticks[..k]) && !ticks[k].stopRequested
  {
    assert ticks[..k + 1] == ticks[..k] + [ticks[k]];
  }

  /** The loop ends by `stop()` exactly at the first iteration during which
      `stop()` ran, unless ESC ended it first: no earlier iteration saw a stop,
      and a run that used up every tick never saw one. */
  lemma {:induction false} RunEndsAtStop<H>(cfg: Config, handlers: seq<H>, s: Session, ticks: seq<Tick>)
    ensures var r := Run(cfg, handlers, s, ticks);
            && (r.exit == Exhausted ==> NoStopRequested(ticks))
            && (r.exit != Exhausted ==> NoStopRequested(ticks[..r.iterations - 1]))
            && (r.exit == Stopped ==> ticks[r.iterations - 1].stopRequested)
    decreases |ticks|
  {
    var r := Run(cfg, handlers, s, ticks);
    if ticks != [] {
      var step := Step(cfg, handlers, s, ticks[0]);
      if step.escape || ticks[0].stopRequested {
        assert r.iterations == 1 && ticks[..0] == [];
      } else {
        var rest := Run(cfg, handlers, step.next, ticks[1..]);
        assert r == Then(step.effects, rest);
        RunEndsAtStop(cfg, handlers, step.next, ticks[1..]);
        if rest.exit == Exhausted {
          NoStopRequestedTail(ticks);
        } else {
          NoStopRequestedShift(ticks, rest.iterations - 1);
          assert ticks[r.iterations - 1] == ticks[1..][rest.iterations - 1];
        }
      }
    }
  }

  /** `ticks[..k + 1]` saw no stop iff its first tick and `ticks[1..][..k]` saw none. */
  lemma NoStopRequestedShift(ticks: seq<Tick>, k: nat)
    requires k < |ticks|
    ensures NoStopRequested(ticks[..k + 1]) <==> !ticks[0].stopRequested && NoStopRequested(ticks[1..][..k])
  {
    assert ticks[..k + 1] == [ticks[0]] + ticks[1..][..k];
  }

  lemma NoStopRequestedTail(ticks: seq<Tick>)
    requires 1 <= |ticks|
    ensures NoStopRequested(ticks) <==> !ticks[0].stopRequested && NoStopRequested(ticks[1..])
  {
    assert ticks == [ticks[0]] + ticks[1..];
  }

  lemma AppendAssociative<T>(a: seq<T>, b: seq<T>, c: seq<T>)
    ensures a + b + c == a + (b + c)
  {
  }

  /** `Prefixed` form of one iteration (see `RunUnfold`). */
  lemma PrefixedStep<H>(cfg: Config, handlers: seq<H>, s: Session, ticks: seq<Tick>, i: nat, done: seq<Effect<H>>)
    requires i < |ticks|
    ensures var step := Step(cfg, handlers, s, ticks[i]);
            var here := Prefixed(done, i, Run(cfg, handlers, s, ticks[i..]));
            && (step.escape ==> here == RunResult(step.next, done + step.effects, i + 1, Escaped))
            && (!step.escape && ticks[i].stopRequested ==> here == RunResult(step.next, done + step.effects, i + 1, Stopped))
            && (!step.escape && !ticks[i].stopRequested ==>
                  here == Prefixed(done + step.effects, i + 1, Run(cfg, handlers, step.next, ticks[i + 1..])))
  {
    RunUnfold(cfg, handlers, s, ticks, i);
    var step := Step(cfg, handlers, s, ticks[i]);
    if !step.escape && !ticks[i].stopRequested {
      var rest := Run(cfg, handlers, step.next, ticks[i + 1..]);
      assert done + (step.effects + rest.effects) == done + step.effects + rest.effects;
    }
  }

  /** One iteration of a session that has `ticks[i..]` still to run. */
  lemma RunUnfold<H>(cfg: Config, handlers: seq<H>, s: Session, ticks: seq<Tick>, i: nat)
    requires i < |ticks|
    ensures var r := Step(cfg, handlers, s, ticks[i]);
            Run(cfg, handlers, s, ticks[i..]) ==
              if r.escape then RunResult(r.next, r.effects, 1, Escaped)
              else if ticks[i].stopRequested then RunResult(r.next, r.effects, 1, Stopped)
              else Then(r.effects, Run(cfg, handlers, r.next, ticks[i + 1..]))
  {
    assert ticks[i..][0] == ticks[i] && ticks[i..][1..] == ticks[i + 1..];
  }

  /** `r` preceded by `k` iterations that produced `effects`. */
  function Prefixed<H>(effects: seq<Effect<H>>, k: nat, r: RunResult<H>): RunResult<H> {
    RunResult(r.last, effects + r.effects, k + r.iterations, r.exit)
  }
}
