/** The command callback: "start", "stop" and "toggle_start" switch
    `on_tracking_`; stopping also sends one last offset toward the raw held
    detection. */
module Commands {
  import opened TrackerState
  import opened Publish

  /** New tracker state plus what was sent while producing it. */
  datatype Reply = Reply(tracker: Tracker, out: seq<Output>)

  /** `startTracking`: the flag is set and nothing else changes. */
  function StartTracking(t: Tracker): (r: Tracker)
    ensures r.onTracking
    ensures r.(onTracking := t.onTracking) == t
  {
    t.(onTracking := true)
  }

  /** Offset toward the held detection through the field-of-view mapping,
      before any filtering. */
  function RawPan(t: Tracker, fov: FovMap): real
  {
    fov(t.ballPosition.x, FovWidth)
  }

  function RawTilt(t: Tracker, fov: FovMap): real
  {
    fov(t.ballPosition.y, FovHeight)
  }

  /** `stopTracking`: the flag is cleared, nothing else changes, and the raw
      offset toward the held detection (not the remembered error) goes
      through the deadband. */
  function StopTracking(t: Tracker, fov: FovMap): (r: Reply)
    ensures !r.tracker.onTracking
    ensures r.tracker.(onTracking := t.onTracking) == t
    ensures |r.out| <= 1
    ensures r.out == [] <==> InDeadband(RawPan(t, fov), RawTilt(t, fov))
    ensures forall o :: o in r.out ==> o == HeadOffset(RawPan(t, fov), RawTilt(t, fov))
  {
    Reply(t.(onTracking := false), PublishHeadJoint(RawPan(t, fov), RawTilt(t, fov)))
  }

  predicate StartsTracking(t: Tracker, msg: string)
  {
    msg == "start" || (msg == "toggle_start" && !t.onTracking)
  }

  predicate StopsTracking(t: Tracker, msg: string)
  {
    msg == "stop" || (msg == "toggle_start" && t.onTracking)
  }

  /** `ballTrackerCommandCallback`: only the tracking flag ever changes;
      starting sends nothing; stopping sends at most the raw final offset;
      "toggle_start" flips the flag; any other string is ignored. */
  function BallTrackerCommand(t: Tracker, msg: string, fov: FovMap): (r: Reply)
    ensures r.tracker.(onTracking := t.onTracking) == t
    ensures StartsTracking(t, msg) ==> r.tracker.onTracking && r.out == []
    ensures StopsTracking(t, msg) ==>
              && !r.tracker.onTracking
              && (r.out == [] <==> InDeadband(RawPan(t, fov), RawTilt(t, fov)))
              && forall o :: o in r.out ==> o == HeadOffset(RawPan(t, fov), RawTilt(t, fov))
    ensures msg == "toggle_start" ==> r.tracker.onTracking == !t.onTracking
    ensures msg != "start" && msg != "stop" && msg != "toggle_start" ==> r == Reply(t, [])
    ensures Valid(t) ==> Valid(r.tracker)
    ensures |r.out| <= 1
  {
    if msg == "start" then Reply(StartTracking(t), [])
    else if msg == "stop" then StopTracking(t, fov)
    else if msg == "toggle_start" then
      if !t.onTracking then Reply(StartTracking(t), []) else StopTracking(t, fov)
    else Reply(t, [])
  }

  /** A second "start" changes nothing. */
  lemma StartIsIdempotent(t: Tracker, fov: FovMap)
    ensures var once := BallTrackerCommand(t, "start", fov);
            BallTrackerCommand(once.tracker, "start", fov) == Reply(once.tracker, [])
  {
  }

  /** `setUsingHeadScan`: only the scan flag changes. */
  function SetUsingHeadScan(t: Tracker, useScan: bool): (r: Tracker)
    ensures r.useHeadScan == useScan
    ensures r.(useHeadScan := t.useHeadScan) == t
  {
    t.(useHeadScan := useScan)
  }
}
