# CameraMouseController, modelled in Dafny

This project models `CameraMouseController` of Camera Mouse Suite. It is the
supervisory loop that turns each tracking result into pointer commands.

On every camera frame the controller does one of four things, or nothing:

- **Acquisition.** The tracker is not initialised and nose auto-detection is on. The
  controller seeds the tracker with the detected point, sets the pointer reference to
  half the screen resolution and restarts the mouse control module.
- **Loss.** The tracked X is at or beyond the hard-coded bounds 90 and 1892. The
  controller stops tracking and schedules a one-shot recovery 5000 ms later. The
  point is still drawn and forwarded to the pointer.
- **Drift re-acquisition.** At most once per 1000 ms of its stopwatch, the controller
  compares the tracked point with a freshly detected one. If the squared displacement
  exceeds the squared threshold, it re-seeds the tracker at the detected point, sets
  the pointer reference to the previous pointer position and restarts the pointer;
  the detected point is then drawn and forwarded to the pointer in place of the
  tracked one. The stopwatch restarts whenever the check found a point, swap or not.
- **Follow.** Otherwise the tracked point is drawn and forwarded to the pointer.

Nothing is issued when an initialised tracker returns the empty point, or when the
tracker is not initialised and auto-detection is off or finds nothing.

A click re-seeds the tracker at the clicked point on the retained frame. A fired
recovery re-seeds it at the integer centre of the retained frame. Both do nothing
when the retained frame is empty.

Files:

- `options.dfy`: the "empty point" as `Option`.
- `points.dfy`: `Point` and the squared displacement.
- `sequences.dfy`: counting the elements of a sequence that satisfy a predicate.
- `controller_spec.dfy`: reference definitions. `Decide` classifies a frame,
  `Commands` lists the calls it issues, and `AfterFrame`, `Reseed` and
  `AfterRecovery` give the state each call leaves.
- `controller.dfy`: the class `CameraMouseController`. Its fields are the retained
  frame, the stopwatch start, the pending recoveries and the log of issued calls.
  Each method updates them step by step, in the controller's own order. Each is
  proved to leave the state its reference definition gives.
- `session.dfy`: runs over sequences of frames, clicks and fired recoveries, with
  the properties that hold over any run.

The collaborators' queries are not recorded; their answers are passed in as parameters:

- the tracking module answers `isInitialized()`/`track(frame)` as a `TrackerAnswer`;
- the feature initialisation module's detection is the parameter `detected`;
- `getPrevPos()` is `prevPos`, and the settings are a `Settings` value;
- the clock reading is `nowMs`; `allFilesLoaded()` is `allFilesLoaded`.

The commands the controller issues are appended to a `seq<Command>` log:
`SetTrackPoint`, `StopTracking`, `Draw` (`drawOnFrame`), `SetScreenReference`,
`Restart`, `Update`, and `ScheduleRecovery` for the one-shot timer.

Notable behaviour of the code, which the model keeps:

- an empty frame is not a no-op: it replaces the retained frame and is processed;
- the loss bounds are the constants 90 and 1892 on X, and Y is never checked;
- there is no per-second countdown, no loss indicator and no session token, so a
  recovery scheduled before a click still fires and overrides the click;
- repeated losses queue several independent recoveries.

## Model

| member | source | states |
|---|---|---|
| `Points.SquaredDistance` | CameraMouseController.cpp:63-65 | `disp * disp` with `disp = auto - tracked` is a squared Euclidean distance: never negative, and zero for equal points |
| `Points.SquaredDistanceSymmetric` | CameraMouseController.cpp:64-65 | the drift test does not depend on the order of the subtraction |
| `Points.Half` | CameraMouseController.cpp:86 | the acquisition reference is half the screen resolution in each coordinate |
| `ControllerSpec.OutOfFrameOnlyOnX` | CameraMouseController.cpp:52 | the loss test reads X only; X strictly between 90 and 1892 never triggers it, and X equal to either bound does |
| `ControllerSpec.Decide` | CameraMouseController.cpp:46-89 | acquisition iff uninitialised, auto-detect on and a detection; loss iff a tracked point with X out of bounds; swap iff in bounds, auto-detect on, elapsed > 1000 ms, a detection, and squared displacement > threshold; stopwatch restart iff the check ran and found a point; nothing iff no tracked point, or uninitialised without auto-detect or detection |
| `ControllerSpec.Commands` | CameraMouseController.cpp:52-88 | no calls exactly when nothing is decided; a tracked point is drawn and then forwarded, last, and update and draw appear nowhere else; a loss starts with stop then schedule, and only a loss issues them; re-seeding happens only on acquisition and swap and is followed by a restart; acquisition references half the resolution, a swap references `getPrevPos()` |
| `ControllerSpec.CommandCounts` | CameraMouseController.cpp:52-76 | one update per tracked point and none otherwise; one stop and one schedule per loss and none otherwise |
| `ControllerSpec.AfterFrame` | CameraMouseController.cpp:42-90 | the incoming frame is always retained, even an empty one; the log only grows; one pending recovery is added exactly on a loss; the stopwatch restarts only to the current time, only after a check with a detection and more than 1000 ms elapsed; with an empty tracked point only the retained frame changes |
| `ControllerSpec.Reseed` | CameraMouseController.cpp:92-99 | with an empty retained frame nothing changes; otherwise exactly set-track-point on the retained frame at the point, then restart, are appended; pending recoveries and the stopwatch are untouched |
| `ControllerSpec.FrameCenter` | CameraMouseController.cpp:113-116 | the centre has integral coordinates, each the floor of half the frame width or height |
| `ControllerSpec.AfterRecovery` | CameraMouseController.cpp:111-122 | a fired recovery removes one pending recovery and re-seeds at the frame centre, then restarts; with an empty retained frame the log is unchanged |
| `Controller.CameraMouseController.constructor` | CameraMouseController.cpp:30-34 | construction starts the stopwatch at the current time, retains no frame, schedules nothing and issues nothing |
| `Controller.CameraMouseController.ProcessFrame` | CameraMouseController.cpp:42-90 | the new state is exactly `AfterFrame` of the old state and the collaborators' answers |
| `Controller.CameraMouseController.ProcessClick` | CameraMouseController.cpp:92-99 | the new state is exactly `Reseed` at the clicked point |
| `Controller.CameraMouseController.IsAutoDetectWorking` | CameraMouseController.cpp:101-104 | returns the detector's files-loaded answer and changes nothing |
| `Controller.CameraMouseController.FiveSecsReset` | CameraMouseController.cpp:106-109 | appends stop-tracking then a 5000 ms schedule, adds one pending recovery, and changes nothing else |
| `Controller.CameraMouseController.SlotProcessClick` | CameraMouseController.cpp:111-122 | the new state is exactly `Reseed` at the integer centre of the retained frame |
| `Controller.CameraMouseController.FireRecovery` | CameraMouseController.cpp:106-122 | the new state is exactly `AfterRecovery` of the old state |
| `Session.Run` | CameraMouseController.cpp:42-122 | over any sequence of events the command log only grows |
| `Session.StepCounts` | CameraMouseController.cpp:42-122 | one event adds one update exactly when it is a frame with a tracked point, and one stop and one schedule exactly when that point is out of bounds |
| `Session.EveryTrackedPointForwardedOnce` | CameraMouseController.cpp:49-76 | over any run, updates issued = frames with a tracked point, in every state and including losses |
| `Session.EveryLossStopsAndSchedules` | CameraMouseController.cpp:106-109 | over any run, stops issued = schedules issued = frames with an out-of-bounds point |
| `Session.LossesQueueRecoveries` | CameraMouseController.cpp:106-109 | with no recovery firing, pending recoveries grow by one per loss; clicks and frames cancel none |
| `Session.RetainsLastFrame` | CameraMouseController.cpp:44 | after any run the retained frame is the last frame delivered, empty or not |
| `Session.ClickDoesNotCancelRecovery` | CameraMouseController.cpp:92-122 | a recovery scheduled before a click still fires after it and re-seeds at the centre, overriding the click |
| `Session.LossThenRecovery` | CameraMouseController.cpp:42-122 | a loss on a non-empty frame stops tracking, schedules 5000 ms, still draws and forwards the point; its recovery then re-seeds at the frame centre and restarts |
| `Session.EmptyFrameIsProcessed` | CameraMouseController.cpp:42-99 | an empty frame is processed like any other, and it empties the retained frame, so a following click does nothing |
| `Session.DriftCheckRateLimited` | CameraMouseController.cpp:58-72 | after a check restarts the stopwatch, a frame at most 1000 ms later neither swaps nor restarts the stopwatch |

## Left out

- Qt scheduling is not modelled. `QTimer::singleShot` is a `ScheduleRecovery(5000)` entry in the log plus a pending-recovery counter. The timer delivering it is the explicit `FireRecovery` method. The order in which several pending recoveries fire, and their 5000 ms delay, are not tracked.
- The `QTime` stopwatch is a start time and a clock reading passed to `ProcessFrame`. The wrap of `QTime::elapsed()` at midnight is not modelled.
- `cv::Mat` pixel data is not modelled. A frame is only its emptiness, width and height. Emptiness is a separate flag, not derived from the size.
- The tracking, feature-initialisation and mouse-control modules are not part of this model. Only their answers (as parameters) and the commands issued to them (in the log) appear. Whether `stopTracking` or `setTrackPoint` change `isInitialized()` is not visible here, so the tracker's state is an input on every frame.
- `Point.h` and `Settings.h` are not part of this model. Coordinates and the threshold are reals. The `Point` empty sentinel is `None`.
- `drawOnFrame` rendering and `qDebug` logging are left out. Drawing appears only as a `Draw` entry in the log.
- The destructor's `delete`s (CameraMouseController.cpp:36-40) are memory management and are not modelled.
- `slot_countdown` and the `countdown` field (CameraMouseController.h:46, 56) are left out: the slot is declared but never defined, and the field is unused.
- The queries `isInitialized()`, `track(frame)`, `initializeFeature(frame)`, `getPrevPos()` and `allFilesLoaded()` are not logged; their answers are parameters. The model therefore does not say on which frames the detector is consulted, nor that the 1000 ms gate limits how often `initializeFeature` is called during tracking (CameraMouseController.cpp:58-60, 82).
- `Points.SquaredDistance`: does not state that a zero squared distance implies equal points. The solver's real arithmetic does not close that direction.
