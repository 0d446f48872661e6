/** Runs of the controller over a sequence of events: camera frames, clicks and
    scheduled recoveries firing. States what holds over any run, not just one call. */
module Session {
  import opened Options
  import opened Points
  import opened ControllerSpec
  import opened Sequences

  /** One thing that can happen to the controller. */
  datatype Event =
    | FrameArrives(frame: Frame, tracker: TrackerAnswer, settings: Settings,
                   detected: Option<Point>, prevPos: Point, nowMs: int)
    | Click(position: Point)
    | RecoveryFires   // only a scheduled recovery can fire; with none pending nothing happens

  function Step(s: ControllerState, e: Event): ControllerState
  {
    match e
    case FrameArrives(frame, tracker, settings, detected, prevPos, nowMs) =>
      AfterFrame(s, frame, tracker, settings, detected, prevPos, nowMs)
    case Click(p) => Reseed(s, p)
    case RecoveryFires => if s.pendingRecoveries > 0 then AfterRecovery(s) else s
  }

  /** The state after the events `evs`, in order, starting from `s`. The command log
      only grows: nothing the controller issued is ever taken back. */
  function Run(s: ControllerState, evs: seq<Event>): (r: ControllerState)
    ensures s.log <= r.log
    decreases |evs|
  {
    if evs == [] then s else Run(Step(s, evs[0]), evs[1..])
  }

  lemma RunTwo(s: ControllerState, e1: Event, e2: Event)
    ensures Run(s, [e1, e2]) == Step(Step(s, e1), e2)
  {
    assert [e1, e2][1..] == [e2];
    assert [e2][1..] == [];
    assert Run(s, [e1, e2]) == Run(Step(s, e1), [e2]);
    assert Run(Step(s, e1), [e2]) == Run(Step(Step(s, e1), e2), []);
  }

  /** The frame event reports a tracked (non-empty) point. */
  predicate IsTrackedFrame(e: Event)
  {
    e.FrameArrives? && e.tracker.Tracked? && e.tracker.position.Some?
  }

  /** The frame event reports a tracked point out of frame. */
  predicate IsLossFrame(e: Event)
  {
    IsTrackedFrame(e) && OutOfFrame(e.tracker.position.value)
  }

  /** The last frame among the events, or `f` if there is none. */
  function LastFrame(f: Frame, evs: seq<Event>): Frame
    decreases |evs|
  {
    if evs == [] then f
    else LastFrame(if evs[0].FrameArrives? then evs[0].frame else f, evs[1..])
  }

  /** Re-seeding issues no update, stop or schedule command. */
  lemma ReseedCounts(f: Frame, p: Point)
    ensures Count([SetTrackPoint(f, p), Restart], IsUpdate) == 0
    ensures Count([SetTrackPoint(f, p), Restart], IsStop) == 0
    ensures Count([SetTrackPoint(f, p), Restart], IsSchedule) == 0
  {
    assert [SetTrackPoint(f, p), Restart][1..] == [Restart];
    assert [Restart][1..] == [];
  }

  /** How many update, stop and schedule commands one event adds to the log. */
  lemma StepCounts(s: ControllerState, e: Event)
    ensures Count(Step(s, e).log, IsUpdate) == Count(s.log, IsUpdate) + (if IsTrackedFrame(e) then 1 else 0)
    ensures Count(Step(s, e).log, IsStop) == Count(s.log, IsStop) + (if IsLossFrame(e) then 1 else 0)
    ensures Count(Step(s, e).log, IsSchedule) == Count(s.log, IsSchedule) + (if IsLossFrame(e) then 1 else 0)
  {
    var r := Step(s, e);
    var added: seq<Command>;
    match e {
      case FrameArrives(frame, tracker, settings, detected, prevPos, nowMs) =>
        var d := Decide(tracker, settings, detected, nowMs - s.checkStartMs);
        added := Commands(frame, d, settings, prevPos);
        CommandCounts(frame, d, settings, prevPos);
      case Click(p) =>
        added := if s.prevFrame.empty then [] else [SetTrackPoint(s.prevFrame, p), Restart];
        ReseedCounts(s.prevFrame, p);
      case RecoveryFires =>
        added := if s.pendingRecoveries == 0 || s.prevFrame.empty then []
                 else [SetTrackPoint(s.prevFrame, FrameCenter(s.prevFrame)), Restart];
        ReseedCounts(s.prevFrame, FrameCenter(s.prevFrame));
    }
    assert r.log == s.log + added;
    CountAppend(s.log, added, IsUpdate);
    CountAppend(s.log, added, IsStop);
    CountAppend(s.log, added, IsSchedule);
  }

  /** Every tracked point is forwarded to the pointer exactly once, whatever state the
      controller is in, out-of-frame points included; nothing else issues update. */
  lemma {:induction false} EveryTrackedPointForwardedOnce(s: ControllerState, evs: seq<Event>)
    ensures Count(Run(s, evs).log, IsUpdate) == Count(s.log, IsUpdate) + Count(evs, IsTrackedFrame)
    decreases |evs|
  {
    if evs != [] {
      StepCounts(s, evs[0]);
      EveryTrackedPointForwardedOnce(Step(s, evs[0]), evs[1..]);
    }
  }

  /** Every out-of-frame point stops tracking once and schedules one recovery; nothing
      else does either. */
  lemma {:induction false} EveryLossStopsAndSchedules(s: ControllerState, evs: seq<Event>)
    ensures Count(Run(s, evs).log, IsStop) == Count(s.log, IsStop) + Count(evs, IsLossFrame)
    ensures Count(Run(s, evs).log, IsSchedule) == Count(s.log, IsSchedule) + Count(evs, IsLossFrame)
    decreases |evs|
  {
    if evs != [] {
      StepCounts(s, evs[0]);
      EveryLossStopsAndSchedules(Step(s, evs[0]), evs[1..]);
    }
  }

  /** Recoveries are never cancelled: until one fires, every loss adds one more pending
      recovery, and clicks or later frames remove none. */
  lemma {:induction false} LossesQueueRecoveries(s: ControllerState, evs: seq<Event>)
    requires forall i :: 0 <= i < |evs| ==> !evs[i].RecoveryFires?
    ensures Run(s, evs).pendingRecoveries == s.pendingRecoveries + Count(evs, IsLossFrame)
    decreases |evs|
  {
    if evs != [] {
      LossesQueueRecoveries(Step(s, evs[0]), evs[1..]);
    }
  }

  /** The retained frame is always the last frame delivered, empty or not. */
  lemma {:induction false} RetainsLastFrame(s: ControllerState, evs: seq<Event>)
    ensures Run(s, evs).prevFrame == LastFrame(s.prevFrame, evs)
    decreases |evs|
  {
    if evs != [] {
      RetainsLastFrame(Step(s, evs[0]), evs[1..]);
    }
  }

  /** A click does not cancel a recovery already scheduled: when it fires later, the
      tracker is re-seeded at the frame centre, overriding the clicked point. */
  lemma ClickDoesNotCancelRecovery(s: ControllerState, p: Point)
    requires s.pendingRecoveries > 0 && !s.prevFrame.empty
    ensures Run(s, [Click(p), RecoveryFires]).log ==
      s.log + [SetTrackPoint(s.prevFrame, p), Restart,
               SetTrackPoint(s.prevFrame, FrameCenter(s.prevFrame)), Restart]
  {
    RunTwo(s, Click(p), RecoveryFires);
  }

  /** A loss on a non-empty frame, then its recovery: tracking stops, the point is still
      forwarded, and five seconds later the tracker is re-seeded at the frame centre. */
  lemma LossThenRecovery(s: ControllerState, frame: Frame, p: Point, settings: Settings,
                         detected: Option<Point>, prevPos: Point, nowMs: int)
    requires !frame.empty && OutOfFrame(p)
    ensures Step(Step(s, FrameArrives(frame, Tracked(Some(p)), settings, detected, prevPos, nowMs)), RecoveryFires) ==
      s.(prevFrame := frame,
         log := s.log + [StopTracking, ScheduleRecovery(RecoveryDelayMs), Draw(frame, p), Update(p),
                         SetTrackPoint(frame, FrameCenter(frame)), Restart])
  {
    var lossCommands := [StopTracking, ScheduleRecovery(RecoveryDelayMs), Draw(frame, p), Update(p)];
    assert Decide(Tracked(Some(p)), settings, detected, nowMs - s.checkStartMs) == Lost(p);
    assert Commands(frame, Lost(p), settings, prevPos) == lossCommands;
    var s1 := s.(prevFrame := frame, pendingRecoveries := s.pendingRecoveries + 1, log := s.log + lossCommands);
    assert Step(s, FrameArrives(frame, Tracked(Some(p)), settings, detected, prevPos, nowMs)) == s1;
    assert s.log + lossCommands + [SetTrackPoint(frame, FrameCenter(frame)), Restart] ==
      s.log + [StopTracking, ScheduleRecovery(RecoveryDelayMs), Draw(frame, p), Update(p),
               SetTrackPoint(frame, FrameCenter(frame)), Restart];
  }

  /** An empty frame is not ignored: a tracked point on it is still forwarded, and it
      replaces the retained frame, so a click that follows does nothing. */
  lemma EmptyFrameIsProcessed(s: ControllerState, frame: Frame, p: Point, settings: Settings,
                              detected: Option<Point>, prevPos: Point, nowMs: int, q: Point)
    requires frame.empty && !OutOfFrame(p) && !settings.autoDetectNose
    ensures Run(s, [FrameArrives(frame, Tracked(Some(p)), settings, detected, prevPos, nowMs), Click(q)]) ==
      s.(prevFrame := frame, log := s.log + [Draw(frame, p), Update(p)])
  {
    RunTwo(s, FrameArrives(frame, Tracked(Some(p)), settings, detected, prevPos, nowMs), Click(q));
  }

  /** Drift checks are rate-limited: once a check has restarted the stopwatch at `e1.nowMs`,
      a frame at most 1000 ms later neither swaps nor checks again. */
  lemma DriftCheckRateLimited(s: ControllerState, e1: Event, e2: Event)
    requires e1.FrameArrives? && e2.FrameArrives?
    requires RestartsTimer(Decide(e1.tracker, e1.settings, e1.detected, e1.nowMs - s.checkStartMs))
    requires e2.nowMs - e1.nowMs <= CheckIntervalMs
    ensures Step(s, e1).checkStartMs == e1.nowMs
    ensures Step(Step(s, e1), e2).checkStartMs == e1.nowMs
    ensures !Decide(e2.tracker, e2.settings, e2.detected, e2.nowMs - Step(s, e1).checkStartMs).Swap?
  {
  }
}
