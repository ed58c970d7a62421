/** The ball tracker's data: the held detection, the tracking flag, the
    not-found counter, the remembered pan/tilt error and the last status.
    Errors, angles and sizes are `real`; the controller is an immutable record
    and every operation of the tracker returns a new one. */
module TrackerState {

  /** Result of one tracking tick (the `NotFound`, `Found`, `Waiting` enum). */
  datatype Status = NotFound | Found | Waiting

  /** A detected circle: normalised image position (top-left is (-1, -1),
      bottom-right is (+1, +1)) and its size `z`; `z <= 0` means "no ball". */
  datatype Point = Point(x: real, y: real, z: real)

  /** What the tracker sends out: a relative head offset for the head control
      module, or a scan request. */
  datatype Output = HeadOffset(pan: real, tilt: real) | Scan

  /** The field-of-view mapping `(v, fov) |-> -atan(v * tan(fov))`, left
      uninterpreted: callers supply it. */
  type FovMap = (real, real) -> real

  /** The fields of the tracker object that the core reads or writes. */
  datatype Tracker = Tracker(
    ballPosition: Point,   // the held detection, `ball_position_`
    onTracking: bool,      // `on_tracking_`
    useHeadScan: bool,     // `use_head_scan_`
    countNotFound: int,    // `count_not_found_`
    currentPan: real,      // `current_ball_pan_`: remembered raw pan error
    currentTilt: real,     // `current_ball_tilt_`: remembered raw tilt error
    currentBottom: real,   // `current_ball_bottom_`: remembered ball size
    status: Status)        // `tracking_status_`: status of the last processed tick

  const NotFoundThreshold: int := 50
  const WaitingThreshold: int := 5

  /** The digits of the C library's `M_PI`. */
  const Pi: real := 3.14159265358979323846

  /** The camera angles handed to `tan` (26.4 and 21.6 degrees, in radians). */
  const FovWidth: real := 26.4 * Pi / 180.0
  const FovHeight: real := 21.6 * Pi / 180.0

  /** One degree: the smallest head offset worth sending. */
  const MinAngle: real := 1.0 * Pi / 180.0

  /** PD gains, and the factor the remembered error decays by while waiting. */
  const PGain: real := 0.75
  const DGain: real := 0.04
  const WaitingDecay: real := 0.7

  /** The state the constructor builds: not tracking, scanning enabled,
      everything else zero. */
  function Initial(): (t: Tracker)
    ensures Valid(t)
    ensures !t.onTracking && t.useHeadScan
    ensures t.countNotFound == 0 && t.status == NotFound
    ensures t.ballPosition == Point(0.0, 0.0, 0.0)
    ensures t.currentPan == 0.0 && t.currentTilt == 0.0 && t.currentBottom == 0.0
  {
    Tracker(Point(0.0, 0.0, 0.0), false, true, 0, 0.0, 0.0, 0.0, NotFound)
  }

  /** What every reachable tracker satisfies between operations: the counter
      never rests above the not-found threshold, and the held size is never
      negative (a candidate only replaces it when strictly larger). */
  predicate Valid(t: Tracker)
  {
    && 0 <= t.countNotFound <= NotFoundThreshold
    && t.ballPosition.z >= 0.0
  }

  function Abs(x: real): (r: real)
    ensures r >= 0.0 && (r == x || r == -x)
  {
    if x < 0.0 then -x else x
  }
}
