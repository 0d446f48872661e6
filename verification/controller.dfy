/** CameraMouseController: the supervisory loop that turns each tracking result into
    pointer commands. Every method updates the fields in place, in the order the
    controller does, and is proved to leave the state its reference definition in
    ControllerSpec gives. */
module Controller {
  import opened Options
  import opened Points
  import opened ControllerSpec

  class CameraMouseController {
    /** The last frame passed to ProcessFrame. */
    var prevFrame: Frame
    /** The clock reading when the drift-check stopwatch was last (re)started. */
    var checkStartMs: int
    /** Recoveries scheduled by FiveSecsReset that have not fired yet. */
    var pendingRecoveries: nat
    /** Every call issued to the tracking module, the mouse control module and the timer. */
    var log: seq<Command>

    function State(): ControllerState
      reads this
    {
      ControllerState(prevFrame, checkStartMs, pendingRecoveries, log)
    }

    /** Construction starts the drift-check stopwatch; the clock reads `nowMs`. */
    constructor (nowMs: int)
      ensures State() == Initial(nowMs)
    {
      prevFrame := NoFrame;
      checkStartMs := nowMs;
      pendingRecoveries := 0;
      log := [];
    }

    /** One camera frame. `tracker` is the tracking module's answer, `detected` what the
        feature initialisation module would find on `frame`, `prevPos` what
        `getPrevPos()` returns, and the clock reads `nowMs`. */
    method ProcessFrame(frame: Frame, tracker: TrackerAnswer, settings: Settings,
                        detected: Option<Point>, prevPos: Point, nowMs: int)
      modifies this
      ensures State() == AfterFrame(old(State()), frame, tracker, settings, detected, prevPos, nowMs)
    {
      prevFrame := frame;
      if tracker.Tracked? {
        var featurePosition := tracker.position;
        if featurePosition.Some? {
          var position := featurePosition.value;
          if position.x >= RightBound || position.x <= LeftBound {
            FiveSecsReset();
          } else if settings.autoDetectNose && nowMs - checkStartMs > CheckIntervalMs {
            var autoFeaturePosition := detected;
            if autoFeaturePosition.Some? {
              var distThreshSq := settings.resetFeatureDistThreshSq;
              var disp := Sub(autoFeaturePosition.value, position);
              if Dot(disp, disp) > distThreshSq {
                log := log + [SetTrackPoint(frame, autoFeaturePosition.value)];
                log := log + [SetScreenReference(prevPos)];
                log := log + [Restart];
                position := autoFeaturePosition.value;
              }
              checkStartMs := nowMs;
            }
          }
          log := log + [Draw(frame, position)];
          log := log + [Update(position)];
        }
      } else if settings.autoDetectNose {
        var initialFeaturePosition := detected;
        if initialFeaturePosition.Some? {
          log := log + [SetTrackPoint(frame, initialFeaturePosition.value)];
          log := log + [SetScreenReference(Half(settings.screenResolution))];
          log := log + [Restart];
        }
      }
    }

    /** A click at `position`: re-seed the tracker on the retained frame. */
    method ProcessClick(position: Point)
      modifies this
      ensures State() == Reseed(old(State()), position)
    {
      if !prevFrame.empty {
        log := log + [SetTrackPoint(prevFrame, position)];
        log := log + [Restart];
      }
    }

    /** Whether the feature initialisation module has loaded its files; changes nothing. */
    method IsAutoDetectWorking(allFilesLoaded: bool) returns (working: bool)
      ensures working == allFilesLoaded
    {
      working := allFilesLoaded;
    }

    /** Stop tracking and schedule one recovery in five seconds; nothing cancels it. */
    method FiveSecsReset()
      modifies this
      ensures log == old(log) + LossCommands
      ensures pendingRecoveries == old(pendingRecoveries) + 1
      ensures prevFrame == old(prevFrame) && checkStartMs == old(checkStartMs)
    {
      log := log + [StopTracking];
      log := log + [ScheduleRecovery(RecoveryDelayMs)];
      pendingRecoveries := pendingRecoveries + 1;
    }

    /** The recovery slot: re-seed at the integer centre of the retained frame. */
    method SlotProcessClick()
      modifies this
      ensures State() == Reseed(old(State()), FrameCenter(old(prevFrame)))
    {
      var width := prevFrame.width;
      var height := prevFrame.height;
      var center := Point((width / 2) as real, (height / 2) as real);
      if !prevFrame.empty {
        log := log + [SetTrackPoint(prevFrame, center)];
        log := log + [Restart];
      }
    }

    /** The timer delivers one of the scheduled recoveries to the slot. */
    method FireRecovery()
      requires pendingRecoveries > 0
      modifies this
      ensures State() == AfterRecovery(old(State()))
    {
      pendingRecoveries := pendingRecoveries - 1;
      SlotProcessClick();
    }
  }
}
