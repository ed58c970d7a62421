/** `processTracking`: one control tick. The not-found counter and the last
    status decide between NotFound, Waiting and Found; Waiting coasts on the
    decayed remembered error, Found measures a fresh one; both go through a
    PD filter and the deadband, and both remember the raw error. */
module Tracking {
  import opened TrackerState
  import opened Publish
  import opened Commands

  /** The outcome of the detection check: new counter, new status, and
      whether the scan behaviour was triggered. */
  datatype Verdict = Verdict(count: int, status: Status, scan: bool)

  /** The held detection counts as a miss. */
  predicate IsMiss(t: Tracker)
  {
    t.ballPosition.z <= 0.0
  }

  /** The detection check. A hit zeroes the counter and is Found. A miss
      counts one more; it is Waiting only while below the waiting threshold
      and after a Found or Waiting tick; once past the not-found threshold
      it triggers a scan and re-arms the counter at zero. */
  function Classify(t: Tracker): (v: Verdict)
    ensures !IsMiss(t) ==> v.count == 0 && v.status == Found && !v.scan
    ensures IsMiss(t) ==> v.status != Found
    ensures IsMiss(t) ==> (v.scan <==> t.countNotFound + 1 > NotFoundThreshold)
    ensures IsMiss(t) && !v.scan ==> v.count == t.countNotFound + 1
    ensures v.scan ==> v.count == 0 && v.status == NotFound
    ensures v.status == Waiting <==>
              && IsMiss(t)
              && t.countNotFound + 1 < WaitingThreshold
              && (t.status == Found || t.status == Waiting)
    ensures 0 <= t.countNotFound <= NotFoundThreshold ==> 0 <= v.count <= NotFoundThreshold
  {
    if t.ballPosition.z <= 0.0 then
      var count := t.countNotFound + 1;
      if count < WaitingThreshold then
        Verdict(count, if t.status == Found || t.status == Waiting then Waiting else NotFound, false)
      else if count > NotFoundThreshold then
        Verdict(0, NotFound, true)
      else
        Verdict(count, NotFound, false)
    else
      Verdict(0, Found, false)
  }

  /** The PD law on one axis: `dt` is the time since the previous
      Waiting or Found tick. The P term alone when the error stands still;
      the D term pushes the target further the way the error is moving. */
  function PdTarget(error: real, previous: real, dt: real): (r: real)
    requires dt > 0.0
    ensures error == previous ==> r == error * PGain
    ensures previous < error ==> error * PGain < r
    ensures error < previous ==> r < error * PGain
  {
    error * PGain + (error - previous) / dt * DGain
  }

  /** The new tracker, the status returned, whether a scan was triggered
      (before the `use_head_scan_` gate), and what was sent. */
  datatype TickResult = TickResult(tracker: Tracker, status: Status, scanned: bool, out: seq<Output>)

  /** `processTracking`: one tick. Only the counter, the status, the held
      size and the remembered error can change; an inactive tick returns
      NotFound and sends nothing; on an active tick the stored status is the
      returned one. The branch lemmas below say what each outcome does. */
  function ProcessTracking(t: Tracker, fov: FovMap, dt: real): (r: TickResult)
    requires dt > 0.0
    ensures r.tracker.onTracking == t.onTracking && r.tracker.useHeadScan == t.useHeadScan
    ensures r.tracker.ballPosition.x == t.ballPosition.x && r.tracker.ballPosition.y == t.ballPosition.y
    ensures !t.onTracking ==> r.status == NotFound && r.out == [] && !r.scanned
    ensures t.onTracking ==> r.tracker.status == r.status
    ensures Valid(t) ==> Valid(r.tracker)
  {
    if !t.onTracking then
      TickResult(t.(ballPosition := t.ballPosition.(z := 0.0), countNotFound := 0), NotFound, false, [])
    else
      var v := Classify(t);
      var scanOut := if v.scan then ScanBall(t.useHeadScan) else [];
      if v.status == NotFound then
        TickResult(t.(countNotFound := v.count, status := NotFound), NotFound, v.scan, scanOut)
      else
        var (pan, tilt, size) :=
          if v.status == Waiting then
            (t.currentPan * WaitingDecay, t.currentTilt * WaitingDecay, t.currentBottom)
          else
            (RawPan(t, fov), RawTilt(t, fov), t.ballPosition.z);
        var headOut := PublishHeadJoint(PdTarget(pan, t.currentPan, dt), PdTarget(tilt, t.currentTilt, dt));
        var t' := t.(countNotFound := v.count,
                     currentPan := pan, currentTilt := tilt, currentBottom := size,
                     ballPosition := t.ballPosition.(z := 0.0),
                     status := v.status);
        TickResult(t', v.status, v.scan, scanOut + headOut)
  }

  /** An inactive tick clears the held size and the counter, sends nothing,
      and keeps everything else, the stored status included. */
  lemma InactiveTick(t: Tracker, fov: FovMap, dt: real)
    requires dt > 0.0 && !t.onTracking
    ensures var r := ProcessTracking(t, fov, dt);
      && r.status == NotFound && !r.scanned && r.out == []
      && r.tracker.ballPosition.z == 0.0 && r.tracker.countNotFound == 0
      && r.tracker.(ballPosition := t.ballPosition, countNotFound := t.countNotFound) == t
  {
  }

  /** On an active tick the detection check decides the counter, the status
      and the scan trigger. */
  lemma ActiveTick(t: Tracker, fov: FovMap, dt: real)
    requires dt > 0.0 && t.onTracking
    ensures var r := ProcessTracking(t, fov, dt);
      && r.tracker.countNotFound == Classify(t).count
      && r.status == Classify(t).status
      && r.scanned == Classify(t).scan
  {
  }

  /** An active NotFound tick stores only the counter and the status, and
      sends at most the scan request, gated by `use_head_scan_`. */
  lemma NotFoundTick(t: Tracker, fov: FovMap, dt: real)
    requires dt > 0.0 && t.onTracking && ProcessTracking(t, fov, dt).status == NotFound
    ensures var r := ProcessTracking(t, fov, dt);
      && r.tracker.(countNotFound := t.countNotFound, status := t.status) == t
      && |r.out| <= 1
      && (Scan in r.out <==> r.scanned && t.useHeadScan)
      && forall o :: o in r.out ==> o == Scan
  {
  }

  /** A Waiting tick remembers 0.7 times the remembered error, keeps the
      remembered size, clears the held size, and sends the PD target of the
      decayed error through the deadband. */
  lemma WaitingTick(t: Tracker, fov: FovMap, dt: real)
    requires dt > 0.0 && ProcessTracking(t, fov, dt).status == Waiting
    ensures var r := ProcessTracking(t, fov, dt);
      && !r.scanned
      && r.tracker.currentPan == WaitingDecay * t.currentPan
      && r.tracker.currentTilt == WaitingDecay * t.currentTilt
      && r.tracker.currentBottom == t.currentBottom
      && r.tracker.ballPosition == t.ballPosition.(z := 0.0)
      && r.out == PublishHeadJoint(PdTarget(WaitingDecay * t.currentPan, t.currentPan, dt),
                                   PdTarget(WaitingDecay * t.currentTilt, t.currentTilt, dt))
  {
  }

  /** A Found tick remembers the raw error toward the held detection (not
      the PD target) and its size, clears the held size, and sends the PD
      target of the raw error through the deadband. */
  lemma FoundTick(t: Tracker, fov: FovMap, dt: real)
    requires dt > 0.0 && ProcessTracking(t, fov, dt).status == Found
    ensures var r := ProcessTracking(t, fov, dt);
      && !r.scanned
      && r.tracker.currentPan == RawPan(t, fov)
      && r.tracker.currentTilt == RawTilt(t, fov)
      && r.tracker.currentBottom == t.ballPosition.z
      && r.tracker.ballPosition == t.ballPosition.(z := 0.0)
      && r.out == PublishHeadJoint(PdTarget(RawPan(t, fov), t.currentPan, dt),
                                   PdTarget(RawTilt(t, fov), t.currentTilt, dt))
  {
  }

  /** The last offset `stopTracking` sends is the error a Found tick would
      remember for the same held detection: both map its x and y (and
      nothing else) through the field of view the same way, and the stop
      skips the PD filter. */
  lemma StopSendsFoundError(t: Tracker, fov: FovMap, dt: real)
    requires dt > 0.0 && t.onTracking && !IsMiss(t)
    ensures var stop, found := StopTracking(t, fov), ProcessTracking(t, fov, dt).tracker;
      && |stop.out| <= 1
      && (stop.out == [] <==> InDeadband(found.currentPan, found.currentTilt))
      && forall o :: o in stop.out ==> o == HeadOffset(found.currentPan, found.currentTilt)
  {
    FoundTick(t, fov, dt);
  }

  /** With a valid counter, the scan fires exactly on the miss that takes the
      counter past 50, i.e. from exactly 50. */
  lemma ScanFiresFromFifty(t: Tracker, fov: FovMap, dt: real)
    requires dt > 0.0 && Valid(t)
    ensures ProcessTracking(t, fov, dt).scanned <==>
              t.onTracking && IsMiss(t) && t.countNotFound == NotFoundThreshold
  {
  }

  /** Waiting coasts: its PD target is a fixed multiple of the remembered
      error. The P term takes 0.75 of the decayed error (0.7 of the
      remembered one); the D term adds -0.012 / dt of the remembered error,
      since the error just fell by 0.3 of itself. */
  lemma WaitingTarget(pan: real, dt: real)
    requires dt > 0.0
    ensures PdTarget(WaitingDecay * pan, pan, dt) == pan * (0.525 - 0.012 / dt)
  {
  }

  /** The deadband seen from a Waiting tick: it stays silent iff both
      coasting targets are below one degree, and otherwise sends exactly
      those targets, once. */
  lemma WaitingDeadband(t: Tracker, fov: FovMap, dt: real)
    requires dt > 0.0 && ProcessTracking(t, fov, dt).status == Waiting
    ensures var r := ProcessTracking(t, fov, dt);
      var pan := t.currentPan * (0.525 - 0.012 / dt);
      var tilt := t.currentTilt * (0.525 - 0.012 / dt);
      && (r.out == [] <==> Abs(pan) < MinAngle && Abs(tilt) < MinAngle)
      && (r.out != [] ==> r.out == [HeadOffset(pan, tilt)])
  {
    var r := ProcessTracking(t, fov, dt);
    var pan := t.currentPan * (0.525 - 0.012 / dt);
    var tilt := t.currentTilt * (0.525 - 0.012 / dt);
    WaitingTick(t, fov, dt);
    assert PdTarget(WaitingDecay * t.currentPan, t.currentPan, dt) == pan by {
      WaitingTarget(t.currentPan, dt);
    }
    assert PdTarget(WaitingDecay * t.currentTilt, t.currentTilt, dt) == tilt by {
      WaitingTarget(t.currentTilt, dt);
    }
    assert r.out == PublishHeadJoint(pan, tilt);
  }
}
