/** The two outward paths: head offsets pass a one-degree deadband, scan
    requests pass the `use_head_scan_` gate. Message construction and topics
    are not modelled; a sent message is an element of the output sequence. */
module Publish {
  import opened TrackerState

  /** Both axes below one degree: the offset is not worth sending. */
  predicate InDeadband(pan: real, tilt: real)
  {
    Abs(pan) < MinAngle && Abs(tilt) < MinAngle
  }

  /** `publishHeadJoint`: at most one offset, carrying exactly the given
      angles, and sent iff some axis reaches one degree. */
  function PublishHeadJoint(pan: real, tilt: real): (out: seq<Output>)
    ensures |out| <= 1
    ensures out == [] <==> Abs(pan) < MinAngle && Abs(tilt) < MinAngle
    ensures forall o :: o in out ==> o == HeadOffset(pan, tilt)
  {
    if InDeadband(pan, tilt) then [] else [HeadOffset(pan, tilt)]
  }

  /** `scanBall`: one scan request when head scanning is enabled, nothing
      otherwise. */
  function ScanBall(useHeadScan: bool): (out: seq<Output>)
    ensures |out| <= 1
    ensures Scan in out <==> useHeadScan
    ensures forall o :: o in out ==> o == Scan
  {
    if useHeadScan then [Scan] else []
  }
}
