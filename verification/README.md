# Ball tracker model

A Dafny model of the ball tracker of the ROBOTIS OP3 soccer demo
(`op3_demo/src/soccer/ball_tracker.cpp`). The tracker keeps the largest
ball detection received since the last control tick. On every tick it
decides whether the ball is Found, Waiting (lost for a few ticks, coasting
on the remembered error) or NotFound. While Found or Waiting it steers the
head through a PD filter and a one-degree deadband. After more than 50
consecutive misses it asks the head for a scan. Commands switch tracking on
and off, and stopping sends one last raw correction.

The tracker object is the immutable record `TrackerState.Tracker`, and
every callback is a pure function from tracker to tracker. Messages the
tracker would publish are collected as `Output` values: `HeadOffset(pan,
tilt)` for the head offset and `Scan` for the scan command.

Modules:

- `TrackerState`: the state, the constants, the constructor's initial
  state, and the invariant `Valid` (the counter lies in [0, 50] and the held
  size is non-negative).
- `Selection`: `ballPositionCallback`, a fold keeping the first strictly
  largest circle.
- `Publish`: the deadband of `publishHeadJoint` and the gate of `scanBall`.
- `Commands`: the command callback, `startTracking`, `stopTracking` and
  `setUsingHeadScan`.
- `Tracking`: `processTracking`. `Classify` is the detection check,
  `PdTarget` is the PD law, `ProcessTracking` is the whole tick, and one
  lemma per outcome says what that outcome does.
- `Runs`: arbitrary sequences of events (detections, commands, scan
  setting, ticks) with a log entry per tick, and the properties that span
  many ticks.

Behaviour of `ball_tracker.cpp` worth noting, which the model keeps as
written:

- `tan` receives the angles 26.4° and 21.6° as written (lines 26-27).
- A tick while not tracking returns NotFound but does not store it in
  `tracking_status_` (lines 107-112). The stored status therefore survives
  a stop, and after a stop and a start the first miss can be Waiting at once
  (`Runs.RestartResumesWaiting`).
- Neither `stopTracking` (lines 88-96) nor a tick while not tracking resets
  the remembered pan, tilt or size (`Tracking.InactiveTick`).
- A Waiting tick keeps the remembered size `current_ball_bottom_` (line
  157). What every Waiting or Found tick clears is the held detection's size
  `ball_position_.z` (line 203), so the next tick is a miss unless a new
  detection arrives (`Tracking.WaitingTick`).
- The time step divides the error change without a guard (lines 181-182),
  so the model requires `dt > 0`.

## Model

| member | source | states |
|---|---|---|
| TrackerState.Initial | op3_demo/src/soccer/ball_tracker.cpp:24-37 | The constructed tracker is valid, not tracking, has head scanning enabled, a zero counter and the status NotFound. The held detection and the remembered pan, tilt and size are all zero. |
| TrackerState.Abs | op3_demo/src/soccer/ball_tracker.cpp:213 | `fabs`: the result is non-negative and equals the argument or its negation. |
| Selection.Offer | op3_demo/src/soccer/ball_tracker.cpp:56-59 | One loop pass: a circle replaces the held one exactly when its size is strictly larger; on a tie the held one stays. |
| Selection.Select | op3_demo/src/soccer/ball_tracker.cpp:54-60 | The loop's result is the old held point or one of the circles. Its size is at least the old size and every circle's size. It differs from the old held point only if strictly larger. |
| Selection.SelectIsFirstLargest | op3_demo/src/soccer/ball_tracker.cpp:52-61 | The loop keeps the old held point, and then no circle is larger, or it picks the first circle of maximal size, which is then strictly larger than the old held point. The lemma returns the index of the circle chosen, or -1. |
| Selection.FirstLargestIsUnique | op3_demo/src/soccer/ball_tracker.cpp:52-61 | At most one index is the first circle of maximal size, so the previous row fully determines the callback. |
| Selection.BallPositionCallback | op3_demo/src/soccer/ball_tracker.cpp:52-61 | Only the held detection changes: to the maximum by size of itself and the message's circles, and only for a strictly larger one. Validity is kept. |
| Publish.PublishHeadJoint | op3_demo/src/soccer/ball_tracker.cpp:210-224 | Nothing is sent iff both angles are below one degree in absolute value. Otherwise exactly one offset carrying the given angles is sent. |
| Publish.ScanBall | op3_demo/src/soccer/ball_tracker.cpp:227-240 | One scan request is sent iff head scanning is enabled; nothing else is ever sent. |
| Commands.StartTracking | op3_demo/src/soccer/ball_tracker.cpp:82-86 | Tracking is on afterwards, and no other field changes. |
| Commands.StopTracking | op3_demo/src/soccer/ball_tracker.cpp:88-96 | Tracking is off afterwards and no other field changes. The raw field-of-view offset toward the held detection (not the remembered error) is sent, at most once, unless it lies within the deadband. |
| Commands.BallTrackerCommand | op3_demo/src/soccer/ball_tracker.cpp:63-80 | Only the tracking flag changes. "start" (or "toggle_start" while off) turns it on and sends nothing. "stop" (or "toggle_start" while on) turns it off and sends the deadbanded raw offset. At most one message is ever sent. "toggle_start" always flips the flag. Any other string changes nothing. Validity is kept. |
| Commands.StartIsIdempotent | op3_demo/src/soccer/ball_tracker.cpp:63-86 | A second "start" leaves the tracker as it is and sends nothing. |
| Commands.SetUsingHeadScan | op3_demo/src/soccer/ball_tracker.cpp:98-101 | The scan flag takes the given value and nothing else changes. |
| Tracking.Classify | op3_demo/src/soccer/ball_tracker.cpp:114-140 | A hit zeroes the counter and is Found. A miss is never Found and counts one more unless it scans. It scans iff the incremented counter passes 50, and then re-arms the counter at 0 as NotFound. The result is Waiting iff it is a miss, the incremented counter is below 5, and the stored status is Found or Waiting. The counter stays within [0, 50]. |
| Tracking.PdTarget | op3_demo/src/soccer/ball_tracker.cpp:180-184 | The PD law on one axis. When the error has not changed the target is the P term `0.75 * error` alone. When the error grew, the target lies beyond the P term; when it shrank, the target lies short of it. |
| Tracking.ProcessTracking | op3_demo/src/soccer/ball_tracker.cpp:103-208 | A tick never changes the tracking flag, the scan flag or the held detection's position. An inactive tick returns NotFound, sends nothing and triggers no scan. An active tick stores the status it returns. Validity is kept. |
| Tracking.InactiveTick | op3_demo/src/soccer/ball_tracker.cpp:107-112 | When not tracking, the tick returns NotFound, sends nothing and clears the held size and the counter. Everything else is kept, the stored status and the remembered error included. |
| Tracking.ActiveTick | op3_demo/src/soccer/ball_tracker.cpp:114-140 | When tracking, the new counter, the status and the scan trigger are those of the detection check. |
| Tracking.NotFoundTick | op3_demo/src/soccer/ball_tracker.cpp:148-152 | An active NotFound tick changes only the counter and the stored status, and returns before the PD step. It sends one scan request iff the scan triggered and scanning is enabled, never more than one, and nothing else. |
| Tracking.WaitingTick | op3_demo/src/soccer/ball_tracker.cpp:154-206 | A Waiting tick triggers no scan. It remembers 0.7 times the remembered pan and tilt, keeps the remembered size and clears the held size. It sends the PD target of the decayed error, through the deadband. |
| Tracking.FoundTick | op3_demo/src/soccer/ball_tracker.cpp:160-206 | A Found tick triggers no scan. It remembers the raw field-of-view error (not the PD target) and the held size, then clears the held size. It sends the PD target of the raw error, through the deadband. |
| Tracking.StopSendsFoundError | op3_demo/src/soccer/ball_tracker.cpp:93-95 | `RawPan`/`RawTilt` (lines 93-94 and 161-162): the offset `stopTracking` sends is the raw field-of-view error that a Found tick would remember for the same held detection, unfiltered. It is sent iff that error is outside the deadband. |
| Tracking.ScanFiresFromFifty | op3_demo/src/soccer/ball_tracker.cpp:115-131 | For a valid tracker, a scan triggers iff tracking is on, the tick is a miss, and the counter is exactly 50. |
| Tracking.WaitingTarget | op3_demo/src/soccer/ball_tracker.cpp:155-184 | While Waiting, the PD target is a fixed multiple of the remembered error: `pan * (0.525 - 0.012 / dt)`. |
| Tracking.WaitingDeadband | op3_demo/src/soccer/ball_tracker.cpp:154-224 | A Waiting tick sends nothing iff both coasting targets `pan * (0.525 - 0.012 / dt)` and `tilt * (0.525 - 0.012 / dt)` are below one degree. Otherwise it sends exactly one offset carrying those targets (lines 196 and 212-224). |
| Runs.Apply | op3_demo/src/soccer/ball_tracker.cpp:52-208 | Any callback or tick keeps the tracker valid. Only a tick adds a log entry, and earlier entries are never rewritten. |
| Runs.Run | op3_demo/src/soccer/ball_tracker.cpp:52-208 | Over any sequence of callbacks and ticks, a valid tracker stays valid: the counter never leaves [0, 50]. |
| Runs.ScanFollowsStreak | op3_demo/src/soccer/ball_tracker.cpp:115-131 | Start from a zero counter. In any run, the counter equals the length of the current streak of misses that did not scan: the last `count` ticks are such misses and the tick before them is not. Every scan happens on a miss that follows 50 consecutive misses that did not scan. |
| Runs.StreaksEndInScan | op3_demo/src/soccer/ball_tracker.cpp:115-131 | Start from a zero counter. In any run, no 51 consecutive ticks are all misses that did not scan, so the 51st miss of a streak always scans. |
| Runs.ScansAreSpaced | op3_demo/src/soccer/ball_tracker.cpp:126-131 | Start from a zero counter. Any two scans in one run are more than 50 ticks apart. |
| Runs.StatusStep | op3_demo/src/soccer/ball_tracker.cpp:103-152 | A single event moves the stored status off NotFound only through a Found tick. A Waiting tick needs a stored Found or Waiting status. |
| Runs.WaitingNeedsFound | op3_demo/src/soccer/ball_tracker.cpp:119-125 | Start from a stored NotFound. In any run, every Waiting tick comes after some Found tick, and a final status other than NotFound needs a Found tick. |
| Runs.StoredStatusStep | op3_demo/src/soccer/ball_tracker.cpp:103-152 | Only a tick while tracking changes the stored status, and it stores exactly the status it logs. Other events, and ticks while not tracking, keep it. |
| Runs.FoundBeforeWaiting | op3_demo/src/soccer/ball_tracker.cpp:119-152 | From any tracker, in any run, a Found tick lies between every NotFound tick taken while tracking and every later Waiting tick. While the stored status is not NotFound, every such NotFound tick has been followed by a Found tick. |
| Runs.MissStep | op3_demo/src/soccer/ball_tracker.cpp:115-152 | A tick while tracking with no ball held keeps that situation. It stores the status it returns, which is Waiting iff the incremented counter is below 5 and the stored status is not NotFound. It scans iff the counter was 50, and the counter becomes 0 after a scan or one more otherwise. |
| Runs.MissStepScans | op3_demo/src/soccer/ball_tracker.cpp:126-131 | A miss tick sends exactly one scan request when the scan triggers with scanning enabled, and none otherwise. |
| Runs.MissStepMemory | op3_demo/src/soccer/ball_tracker.cpp:148-201 | A miss tick decays the remembered error by 0.7 when Waiting and leaves it unchanged when NotFound. The remembered size is always kept. |
| Runs.MissRunState | op3_demo/src/soccer/ball_tracker.cpp:115-152 | Consider ticks after a Found tick with no ball held, each tick with its own positive time step. After `k` of them the tracker is still tracking with no ball held. The counter is the streak counter (`k % 51`, `Runs.StreakIsMod`). The status is Waiting for `k` from 1 to 4 and NotFound from 5 on. |
| Runs.MissRunLog | op3_demo/src/soccer/ball_tracker.cpp:115-152 | The `i`-th of those ticks is a miss. It is Waiting iff `i + 1 < 5`, and it scans iff the streak counter before it is 50. |
| Runs.MissRunScans | op3_demo/src/soccer/ball_tracker.cpp:126-131 | The number of scan requests sent during those ticks equals the number of completed streaks when scanning is enabled, and zero otherwise. |
| Runs.MissRunMemory | op3_demo/src/soccer/ball_tracker.cpp:154-201 | During those ticks the remembered error is the Found value decayed by 0.7 once per Waiting tick (at most four times), then frozen. The remembered size never changes. |
| Runs.NoBallIsNoOp | op3_demo/src/soccer/ball_tracker.cpp:52-61 | A detection message whose circles all have size at most 0 leaves a tracker holding no ball unchanged. |
| Runs.QuietIsTicks | op3_demo/src/soccer/ball_tracker.cpp:52-208 | After a Found tick with no ball held, consider any mix of ticks (each with its own positive time step) and detection messages holding no ball. The run is exactly its ticks applied in order. |
| Runs.MissesAfterFound | op3_demo/src/soccer/ball_tracker.cpp:115-206 | Start after a Found tick with no ball held. Then comes any mix of `k` ticks, each with its own positive time step, and detection messages whose circles all have size at most 0. Every tick is a miss. Misses 1 to 4 are Waiting and every later miss is NotFound. The counter ends at `k % 51`. The `i`-th tick scans iff `(i + 1) % 51 == 0`. `k / 51` scan requests are sent when enabled, none otherwise. The remembered error decays by 0.7 per Waiting tick and the remembered size is kept. |
| Runs.StoppedTick | op3_demo/src/soccer/ball_tracker.cpp:88-112 | After a Found tick, a stop followed by a tick logs one inactive NotFound tick. Tracking is off, the stored status is still Found, and the counter is zero. |
| Runs.RestartResumesWaiting | op3_demo/src/soccer/ball_tracker.cpp:88-125 | With any two positive time steps, after a Found tick the sequence stop, tick, start, tick logs an inactive NotFound tick and then a Waiting miss. The stored status survives the stop. |

## Left out

- ROS plumbing is not modelled: node handle, publishers, subscribers, message construction and topic names (lines 24-45, 216-224, 235-239). A sent message is an element of the output sequence.
- The clock is not modelled. `ros::Time::now()` and `prev_time_` (lines 174-177) become the parameter `dt` of each tick, which is the time since the previous Waiting or Found tick; the previous time is only updated on those ticks. The unguarded division by a zero or negative `dt` is excluded by `requires dt > 0`.
- `atan` and `tan` are not modelled: the field-of-view mapping `-atan(v * tan(fov))` is the function parameter `fov` (`FovMap`), left uninterpreted.
- Double-precision arithmetic is modelled by exact `real` arithmetic, and `M_PI` by its decimal digits.
- `count_not_found_` is an `int` whose 32-bit width is not modelled. It never leaves [0, 50] (`Runs.Run`), so no wrap-around can occur.
- Debug logging (`ROS_INFO_COND`, `DEBUG_PRINT`) is not modelled; it has no effect on state.
- Concurrency is not modelled. Callbacks and ticks are interleaved as one sequence of events, each applied atomically.
- The destructor and the unreachable `default` case of the status switch are not modelled.
- Runs.MissesAfterFound (and `Runs.MissRunState`, `Runs.MissRunLog`, `Runs.MissRunScans`, `Runs.MissRunMemory`, `Runs.QuietIsTicks`): the run may hold only ticks and detection messages holding no ball. Commands and changes of the scan setting are excluded, because they switch tracking or scanning and end the pattern.
- Commands.RawPan and Commands.RawTilt carry no contract of their own, because the mapping is left uninterpreted. What holds of them is stated by `Tracking.StopSendsFoundError`.
- Tracking.ProcessTracking: its own contract states only what holds on every path; what each outcome does is stated by `Tracking.InactiveTick`, `Tracking.ActiveTick`, `Tracking.NotFoundTick`, `Tracking.WaitingTick` and `Tracking.FoundTick`.
