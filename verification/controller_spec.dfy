/** Reference definitions of what CameraMouseController does on each call: which
    decision a frame leads to, which commands it issues, and the state it leaves. */
module ControllerSpec {
  import opened Options
  import opened Points
  import opened Sequences

  /** A camera frame: only its emptiness and its size matter to the controller. */
  datatype Frame = Frame(empty: bool, width: nat, height: nat)

  /** A default-constructed image: empty, of size 0 x 0. */
  const NoFrame := Frame(true, 0, 0)

  /** The settings the controller reads on each frame. */
  datatype Settings = Settings(autoDetectNose: bool, resetFeatureDistThreshSq: real, screenResolution: Point)

  /** What the tracking module answers: `isInitialized()` and, when it is, `track(frame)`. */
  datatype TrackerAnswer = NotInitialized | Tracked(position: Option<Point>)

  /** The calls the controller issues to its collaborators, in order. */
  datatype Command =
    | SetTrackPoint(frame: Frame, point: Point)   // tracking module
    | StopTracking                                // tracking module
    | Draw(frame: Frame, point: Point)            // tracking module: drawOnFrame
    | SetScreenReference(point: Point)            // mouse control module
    | Restart                                     // mouse control module
    | Update(point: Point)                        // mouse control module
    | ScheduleRecovery(delayMs: int)              // one-shot timer to slot_processClick

  /** Hard-coded X bounds of the tracked feature. */
  const LeftBound: real := 90.0
  const RightBound: real := 1892.0
  /** Minimum time between two drift checks, and the delay of a loss recovery. */
  const CheckIntervalMs := 1000
  const RecoveryDelayMs := 5000

  /** The feature is "outta frame": X at or beyond a bound. Y is never looked at. */
  predicate OutOfFrame(p: Point)
  {
    p.x >= RightBound || p.x <= LeftBound
  }

  /** Only X decides a loss, and every X strictly between the bounds is in frame. */
  lemma OutOfFrameOnlyOnX(p: Point, y: real)
    ensures OutOfFrame(p) <==> OutOfFrame(Point(p.x, y))
    ensures LeftBound < p.x < RightBound ==> !OutOfFrame(p)
    ensures p.x == LeftBound || p.x == RightBound ==> OutOfFrame(p)
  {
  }

  /** What one frame leads to. */
  datatype Decision =
    | Idle                              // nothing to do: no detection
    | Acquire(seed: Point)              // uninitialised tracker seeded from the detector
    | Lost(tracked: Point)              // tracked point out of frame
    | Follow(tracked: Point, checked: bool)
        // in frame, forwarded as tracked; `checked`: the drift check ran and found a point
    | Swap(tracked: Point, detected: Point)
        // drift re-acquisition: the detected point replaces the tracked one

  /** The tracker delivered a point this frame. */
  predicate IsTracking(d: Decision)
  {
    d.Lost? || d.Follow? || d.Swap?
  }

  /** The point handed to drawOnFrame and update. */
  function Forwarded(d: Decision): Point
    requires IsTracking(d)
  {
    if d.Swap? then d.detected else d.tracked
  }

  /** The drift-check stopwatch is restarted. */
  predicate RestartsTimer(d: Decision)
  {
    d.Swap? || (d.Follow? && d.checked)
  }

  /** The decision `processFrame` takes, from the collaborators' answers and the time
      elapsed on the drift-check stopwatch. */
  function Decide(tracker: TrackerAnswer, settings: Settings, detected: Option<Point>, elapsedMs: int): (d: Decision)
    // acquisition
    ensures d.Acquire? <==> tracker.NotInitialized? && settings.autoDetectNose && detected.Some?
    ensures d.Acquire? ==> d.seed == detected.value
    // loss: decided on X alone
    ensures d.Lost? <==> tracker.Tracked? && tracker.position.Some? && OutOfFrame(tracker.position.value)
    // drift swap
    ensures d.Swap? <==>
      && tracker.Tracked? && tracker.position.Some? && !OutOfFrame(tracker.position.value)
      && settings.autoDetectNose && elapsedMs > CheckIntervalMs && detected.Some?
      && SquaredDistance(detected.value, tracker.position.value) > settings.resetFeatureDistThreshSq
    ensures d.Swap? ==> d.detected == detected.value
    // the stopwatch restarts whenever the check ran and the detector found a point
    ensures RestartsTimer(d) <==>
      && tracker.Tracked? && tracker.position.Some? && !OutOfFrame(tracker.position.value)
      && settings.autoDetectNose && elapsedMs > CheckIntervalMs && detected.Some?
    // every tracked point is acted upon, and nothing happens without one or a seed
    ensures IsTracking(d) <==> tracker.Tracked? && tracker.position.Some?
    ensures IsTracking(d) ==> d.tracked == tracker.position.value
    ensures d.Idle? <==>
      (tracker.Tracked? && tracker.position.None?) ||
      (tracker.NotInitialized? && !(settings.autoDetectNose && detected.Some?))
  {
    match tracker
    case NotInitialized =>
      if settings.autoDetectNose && detected.Some? then Acquire(detected.value) else Idle
    case Tracked(None) => Idle
    case Tracked(Some(p)) =>
      if OutOfFrame(p) then Lost(p)
      else if !settings.autoDetectNose || elapsedMs <= CheckIntervalMs || detected.None? then Follow(p, false)
      else if SquaredDistance(detected.value, p) > settings.resetFeatureDistThreshSq then Swap(p, detected.value)
      else Follow(p, true)
  }

  /** The two calls of `five_secs_reset`. */
  const LossCommands := [StopTracking, ScheduleRecovery(RecoveryDelayMs)]

  /** The commands of each decision, in the order they are issued. */
  function Commands(frame: Frame, d: Decision, settings: Settings, prevPos: Point): (cmds: seq<Command>)
    ensures cmds == [] <==> d.Idle?
    // a tracked point is drawn and forwarded last, and update is issued nowhere else
    ensures IsTracking(d) ==>
      |cmds| >= 2 && cmds[|cmds| - 2] == Draw(frame, Forwarded(d)) && cmds[|cmds| - 1] == Update(Forwarded(d))
    ensures forall i :: 0 <= i < |cmds| && cmds[i].Update? ==> IsTracking(d) && i == |cmds| - 1
    ensures forall i :: 0 <= i < |cmds| && cmds[i].Draw? ==> IsTracking(d) && i == |cmds| - 2
    // a loss stops tracking and schedules one recovery, first
    ensures d.Lost? ==> cmds[..2] == LossCommands
    ensures forall i :: 0 <= i < |cmds| && (cmds[i].StopTracking? || cmds[i].ScheduleRecovery?) ==> d.Lost?
    // re-seeding happens on acquisition and drift swap only, and is followed by a restart
    ensures forall i :: 0 <= i < |cmds| && cmds[i].SetTrackPoint? ==>
      (d.Acquire? || d.Swap?) && i + 2 < |cmds| && cmds[i + 2] == Restart
    ensures d.Acquire? ==> cmds[0] == SetTrackPoint(frame, d.seed) && cmds[1] == SetScreenReference(Half(settings.screenResolution))
    ensures d.Swap? ==> cmds[0] == SetTrackPoint(frame, d.detected) && cmds[1] == SetScreenReference(prevPos)
  {
    match d
    case Idle => []
    case Acquire(seed) => [SetTrackPoint(frame, seed), SetScreenReference(Half(settings.screenResolution)), Restart]
    case Lost(p) => LossCommands + [Draw(frame, p), Update(p)]
    case Follow(p, _) => [Draw(frame, p), Update(p)]
    case Swap(_, a) => [SetTrackPoint(frame, a), SetScreenReference(prevPos), Restart, Draw(frame, a), Update(a)]
  }

  /** The controller's own state: the retained frame, the start of the drift-check
      stopwatch, the recoveries scheduled and not yet fired, and the calls issued so far. */
  datatype ControllerState = ControllerState(
    prevFrame: Frame,
    checkStartMs: int,
    pendingRecoveries: nat,
    log: seq<Command>)

  /** Right after construction: the stopwatch is started, no frame is retained. */
  function Initial(nowMs: int): ControllerState
  {
    ControllerState(NoFrame, nowMs, 0, [])
  }

  /** The state after `processFrame(frame)`; the clock reads `nowMs`. */
  function AfterFrame(s: ControllerState, frame: Frame, tracker: TrackerAnswer, settings: Settings,
                      detected: Option<Point>, prevPos: Point, nowMs: int): (r: ControllerState)
    // the incoming frame is always retained, even an empty one
    ensures r.prevFrame == frame
    ensures s.log <= r.log
    // one recovery is queued exactly when the tracked X is out of frame
    ensures r.pendingRecoveries == s.pendingRecoveries + (if tracker.Tracked? && tracker.position.Some? && OutOfFrame(tracker.position.value) then 1 else 0)
    // the stopwatch restarts only when the drift check ran and found a point
    ensures r.checkStartMs == nowMs || r.checkStartMs == s.checkStartMs
    ensures r.checkStartMs != s.checkStartMs ==>
      tracker.Tracked? && tracker.position.Some? && settings.autoDetectNose && detected.Some? &&
      nowMs - s.checkStartMs > CheckIntervalMs
    // with no point from the tracker, only the retained frame changes
    ensures tracker == Tracked(None) ==> r == s.(prevFrame := frame)
  {
    var d := Decide(tracker, settings, detected, nowMs - s.checkStartMs);
    ControllerState(
      frame,
      if RestartsTimer(d) then nowMs else s.checkStartMs,
      s.pendingRecoveries + (if d.Lost? then 1 else 0),
      s.log + Commands(frame, d, settings, prevPos))
  }

  /** Re-seeding the tracker at `p` on the retained frame: `processClick(p)`, and the
      body of `slot_processClick` with the frame centre. A no-op without a frame. */
  function Reseed(s: ControllerState, p: Point): (r: ControllerState)
    ensures s.prevFrame.empty ==> r == s
    ensures !s.prevFrame.empty ==>
      |r.log| == |s.log| + 2 && r.log[..|s.log|] == s.log &&
      r.log[|s.log|] == SetTrackPoint(s.prevFrame, p) && r.log[|s.log| + 1] == Restart
    // neither a click nor a recovery cancels anything or touches the stopwatch
    ensures r.prevFrame == s.prevFrame && r.checkStartMs == s.checkStartMs
    ensures r.pendingRecoveries == s.pendingRecoveries
  {
    if s.prevFrame.empty then s
    else s.(log := s.log + [SetTrackPoint(s.prevFrame, p), Restart])
  }

  /** The integer centre `(width/2, height/2)` of a frame. */
  function FrameCenter(f: Frame): (c: Point)
    ensures c.x == c.x.Floor as real && c.y == c.y.Floor as real
    ensures 0.0 <= 2.0 * c.x <= f.width as real < 2.0 * c.x + 2.0
    ensures 0.0 <= 2.0 * c.y <= f.height as real < 2.0 * c.y + 2.0
  {
    Point((f.width / 2) as real, (f.height / 2) as real)
  }

  /** The state after one scheduled recovery fires. */
  function AfterRecovery(s: ControllerState): (r: ControllerState)
    requires s.pendingRecoveries > 0
    ensures r.pendingRecoveries == s.pendingRecoveries - 1
    ensures r.prevFrame == s.prevFrame && r.checkStartMs == s.checkStartMs
    ensures s.prevFrame.empty ==> r.log == s.log
    ensures !s.prevFrame.empty ==> r.log == s.log + [SetTrackPoint(s.prevFrame, FrameCenter(s.prevFrame)), Restart]
  {
    Reseed(s.(pendingRecoveries := s.pendingRecoveries - 1), FrameCenter(s.prevFrame))
  }

  predicate IsUpdate(c: Command) { c.Update? }
  predicate IsStop(c: Command) { c.StopTracking? }
  predicate IsSchedule(c: Command) { c.ScheduleRecovery? }

  /** Each decision issues update once exactly when a point was tracked, and stops
      tracking and schedules a recovery once exactly on a loss. */
  lemma CommandCounts(frame: Frame, d: Decision, settings: Settings, prevPos: Point)
    ensures Count(Commands(frame, d, settings, prevPos), IsUpdate) == if IsTracking(d) then 1 else 0
    ensures Count(Commands(frame, d, settings, prevPos), IsStop) == if d.Lost? then 1 else 0
    ensures Count(Commands(frame, d, settings, prevPos), IsSchedule) == if d.Lost? then 1 else 0
  {
    var cmds := Commands(frame, d, settings, prevPos);
    CountSuffixes(cmds, IsUpdate);
    CountSuffixes(cmds, IsStop);
    CountSuffixes(cmds, IsSchedule);
    assert cmds[0..] == cmds;
    assert cmds[|cmds|..] == [];
  }
}
