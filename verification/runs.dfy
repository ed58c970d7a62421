/** Sequences of callbacks and ticks applied one after another to a single
    tracker, with a log of every tick, so that properties spanning several
    ticks can be stated. */
module Runs {
  import opened TrackerState
  import opened Publish
  import opened Selection
  import opened Commands
  import opened Tracking

  /** Everything that can happen to the tracker: a detection message, a
      command string, a change of the scan setting, or a control tick with
      the time since the previous Waiting/Found tick. */
  datatype Event =
    | Detected(circles: seq<Point>)
    | Command(msg: string)
    | UseHeadScan(on: bool)
    | Tick(dt: real)

  /** How a tick met the tracker: not tracking, tracking with no ball held,
      or tracking with a ball held. */
  datatype TickKind = Inactive | Miss | Hit

  datatype TickLog = TickLog(kind: TickKind, status: Status, scanned: bool)

  /** The tracker after a run, everything sent, and one log entry per tick. */
  datatype Trace = Trace(tracker: Tracker, out: seq<Output>, ticks: seq<TickLog>)

  function KindOf(t: Tracker): TickKind
  {
    if !t.onTracking then Inactive else if IsMiss(t) then Miss else Hit
  }

  predicate WellTimed(evs: seq<Event>)
  {
    forall i :: 0 <= i < |evs| ==> evs[i].Tick? ==> evs[i].dt > 0.0
  }

  /** One event applied to a trace: the tracker moves on, outputs are
      appended, and a tick also appends its log entry. */
  function Apply(tr: Trace, e: Event, fov: FovMap): (r: Trace)
    requires e.Tick? ==> e.dt > 0.0
    ensures |r.ticks| == |tr.ticks| + (if e.Tick? then 1 else 0)
    ensures r.ticks[..|tr.ticks|] == tr.ticks
    ensures Valid(tr.tracker) ==> Valid(r.tracker)
  {
    match e
    case Detected(cs) => tr.(tracker := BallPositionCallback(tr.tracker, cs))
    case Command(msg) =>
      var rep := BallTrackerCommand(tr.tracker, msg, fov);
      tr.(tracker := rep.tracker, out := tr.out + rep.out)
    case UseHeadScan(on) => tr.(tracker := SetUsingHeadScan(tr.tracker, on))
    case Tick(dt) => TickTrace(tr, dt, fov)
  }

  /** A tick applied to a trace. */
  function TickTrace(tr: Trace, dt: real, fov: FovMap): (r: Trace)
    requires dt > 0.0
    ensures |r.ticks| == |tr.ticks| + 1
    ensures r.ticks[..|tr.ticks|] == tr.ticks
  {
    var s := ProcessTracking(tr.tracker, fov, dt);
    Trace(s.tracker, tr.out + s.out, tr.ticks + [TickLog(KindOf(tr.tracker), s.status, s.scanned)])
  }

  /** The events applied in order, starting from `t`. Valid trackers stay
      valid: the counter stays within [0, 50] and the held size non-negative. */
  function Run(t: Tracker, evs: seq<Event>, fov: FovMap): (r: Trace)
    requires WellTimed(evs)
    ensures Valid(t) ==> Valid(r.tracker)
    ensures |r.ticks| <= |evs|
    decreases |evs|
  {
    if |evs| == 0 then Trace(t, [], [])
    else Apply(Run(t, evs[..|evs| - 1], fov), evs[|evs| - 1], fov)
  }

  /** Every triggered scan ends an unbroken run of 51 miss ticks, none of the
      first 50 of which scanned. */
  ghost predicate ScansEndStreaks(ticks: seq<TickLog>)
  {
    forall i :: 0 <= i < |ticks| && ticks[i].scanned ==>
      && i >= NotFoundThreshold
      && ticks[i].kind == Miss
      && forall j :: i - NotFoundThreshold <= j < i ==> Unscanned(ticks[j])
  }

  /** A miss tick that did not scan: one more step of a not-found streak. */
  predicate Unscanned(l: TickLog)
  {
    l.kind == Miss && !l.scanned
  }

  /** The counter is exactly the length of the current streak: the last
      `count` ticks were misses that did not scan, and the tick before them,
      if any, was not. */
  ghost predicate CountIsStreak(tr: Trace)
  {
    && 0 <= tr.tracker.countNotFound <= |tr.ticks|
    && (forall j :: |tr.ticks| - tr.tracker.countNotFound <= j < |tr.ticks| ==> Unscanned(tr.ticks[j]))
    && (tr.tracker.countNotFound < |tr.ticks| ==>
          !Unscanned(tr.ticks[|tr.ticks| - tr.tracker.countNotFound - 1]))
  }

  /** From a zero counter, every scan in any run of events is preceded by
      50 consecutive non-scanning miss ticks (and is itself a miss tick). */
  lemma {:induction false} ScanFollowsStreak(t: Tracker, evs: seq<Event>, fov: FovMap)
    requires Valid(t) && t.countNotFound == 0 && WellTimed(evs)
    ensures CountIsStreak(Run(t, evs, fov))
    ensures ScansEndStreaks(Run(t, evs, fov).ticks)
    decreases |evs|
  {
    if |evs| > 0 {
      var pre := evs[..|evs| - 1];
      assert WellTimed(pre);
      var tr := Run(t, pre, fov);
      ScanFollowsStreak(t, pre, fov);
      var e := evs[|evs| - 1];
      var r := Apply(tr, e, fov);
      assert r == Run(t, evs, fov);
      if e.Tick? {
        StreakTick(tr, e.dt, fov);
      }
    }
  }

  /** One tick keeps the counter equal to the current streak, and a scan
      it triggers ends a streak of 50 unscanned misses. */
  lemma StreakTick(tr: Trace, dt: real, fov: FovMap)
    requires dt > 0.0 && Valid(tr.tracker) && CountIsStreak(tr) && ScansEndStreaks(tr.ticks)
    ensures CountIsStreak(TickTrace(tr, dt, fov)) && ScansEndStreaks(TickTrace(tr, dt, fov).ticks)
  {
    var s := ProcessTracking(tr.tracker, fov, dt);
    var r := TickTrace(tr, dt, fov);
    var n := |tr.ticks|;
    assert r.ticks == tr.ticks + [TickLog(KindOf(tr.tracker), s.status, s.scanned)];
    assert forall j :: 0 <= j < n ==> r.ticks[j] == tr.ticks[j];
    if s.scanned {
      assert tr.tracker.countNotFound == NotFoundThreshold;
    }
  }

  /** Among the 51 ticks from `i` on, some tick is not a miss that went
      without a scan. */
  ghost predicate BrokenAt(ticks: seq<TickLog>, i: int)
  {
    exists j :: i <= j <= i + NotFoundThreshold && 0 <= j < |ticks| && !Unscanned(ticks[j])
  }

  /** From a zero counter, no run holds 51 consecutive misses that all went
      without a scan: the 51st miss of a streak always scans. */
  lemma {:induction false} StreaksEndInScan(t: Tracker, evs: seq<Event>, fov: FovMap)
    requires Valid(t) && t.countNotFound == 0 && WellTimed(evs)
    ensures forall i :: 0 <= i && i + NotFoundThreshold < |Run(t, evs, fov).ticks| ==>
              BrokenAt(Run(t, evs, fov).ticks, i)
    decreases |evs|
  {
    if |evs| > 0 {
      var pre := evs[..|evs| - 1];
      assert WellTimed(pre);
      StreaksEndInScan(t, pre, fov);
      ScanFollowsStreak(t, evs, fov);
      var tr := Run(t, pre, fov);
      var r := Run(t, evs, fov);
      assert r == Apply(tr, evs[|evs| - 1], fov);
      var n := |tr.ticks|;
      assert forall j :: 0 <= j < n ==> r.ticks[j] == tr.ticks[j];
      forall i | 0 <= i && i + NotFoundThreshold < |r.ticks|
        ensures BrokenAt(r.ticks, i)
      {
        if i + NotFoundThreshold < n {
          assert BrokenAt(tr.ticks, i);
          var j :| i <= j <= i + NotFoundThreshold && 0 <= j < n && !Unscanned(tr.ticks[j]);
          assert !Unscanned(r.ticks[j]);
        } else {
          var j := |r.ticks| - r.tracker.countNotFound - 1;
          assert !Unscanned(r.ticks[j]);
        }
      }
    }
  }

  /** Two scans in one run are at least 51 ticks apart. */
  lemma ScansAreSpaced(t: Tracker, evs: seq<Event>, fov: FovMap, i: int, j: int)
    requires Valid(t) && t.countNotFound == 0 && WellTimed(evs)
    requires 0 <= i < j < |Run(t, evs, fov).ticks|
    requires Run(t, evs, fov).ticks[i].scanned && Run(t, evs, fov).ticks[j].scanned
    ensures j - i > NotFoundThreshold
  {
    ScanFollowsStreak(t, evs, fov);
  }

  /** The counter after `k` misses from zero: one more per miss, back to
      zero on the miss that passes the not-found threshold. */
  function Streak(k: nat): (c: nat)
    ensures c <= NotFoundThreshold
  {
    if k == 0 then 0
    else if Streak(k - 1) == NotFoundThreshold then 0
    else Streak(k - 1) + 1
  }

  /** How many of the first `k` misses from zero trigger a scan. */
  function ScansAfter(k: nat): nat
  {
    if k == 0 then 0
    else ScansAfter(k - 1) + (if Streak(k - 1) == NotFoundThreshold then 1 else 0)
  }

  /** The remembered error after `n` Waiting ticks. */
  function Decayed(e: real, n: nat): real
  {
    if n == 0 then e else WaitingDecay * Decayed(e, n - 1)
  }

  function Min(a: nat, b: nat): nat
  {
    if a <= b then a else b
  }

  /** The counter wraps every 51 misses and the scans are the completed
      wraps. */
  lemma {:induction false} StreakIsMod(k: nat)
    ensures Streak(k) == k % 51
    ensures ScansAfter(k) == k / 51
  {
    if k > 0 {
      StreakIsMod(k - 1);
      ModStep(k - 1);
    }
  }

  lemma ModStep(k: nat)
    ensures (k + 1) % 51 == if k % 51 == 50 then 0 else k % 51 + 1
    ensures (k + 1) / 51 == if k % 51 == 50 then k / 51 + 1 else k / 51
  {
  }

  lemma {:induction false} StreakSmall(k: nat)
    requires k <= NotFoundThreshold
    ensures Streak(k) == k
  {
    if k > 0 {
      StreakSmall(k - 1);
    }
  }

  /** A tracking tracker holding no ball. */
  predicate Missing(u: Tracker)
  {
    u.onTracking && IsMiss(u) && Valid(u)
  }

  /** A tick on a `Missing` tracker leaves it `Missing`: it counts one more
      miss (or re-arms at 50) and is Waiting only early in a streak that
      follows a Found or Waiting. */
  lemma MissStep(u: Tracker, fov: FovMap, dt: real)
    requires dt > 0.0 && Missing(u)
    ensures var s := ProcessTracking(u, fov, dt);
      && Missing(s.tracker) && s.tracker.useHeadScan == u.useHeadScan
      && s.tracker.status == s.status
      && s.status == (if u.countNotFound + 1 < WaitingThreshold && u.status != NotFound then Waiting else NotFound)
      && (s.scanned <==> u.countNotFound == NotFoundThreshold)
      && s.tracker.countNotFound == (if s.scanned then 0 else u.countNotFound + 1)
  {
    var s := ProcessTracking(u, fov, dt);
    ActiveTick(u, fov, dt);
    if s.status == Waiting {
      WaitingTick(u, fov, dt);
    }
  }

  /** A tick on a `Missing` tracker sends one scan request exactly when it
      triggers the scan with scanning enabled. */
  lemma MissStepScans(u: Tracker, fov: FovMap, dt: real)
    requires dt > 0.0 && Missing(u)
    ensures var s := ProcessTracking(u, fov, dt);
      multiset(s.out)[Scan] == (if s.scanned && u.useHeadScan then 1 else 0)
  {
    var s := ProcessTracking(u, fov, dt);
    ActiveTick(u, fov, dt);
    if s.status == NotFound {
      NotFoundTick(u, fov, dt);
      if s.scanned && u.useHeadScan {
        assert s.out == [Scan];
      } else {
        assert s.out == [];
      }
    } else {
      WaitingTick(u, fov, dt);
      assert forall o :: o in s.out ==> o.HeadOffset?;
      assert Scan !in s.out;
    }
  }

  /** A tick on a `Missing` tracker decays the remembered error when
      Waiting, keeps it otherwise, and always keeps the remembered size. */
  lemma MissStepMemory(u: Tracker, fov: FovMap, dt: real)
    requires dt > 0.0 && Missing(u)
    ensures var s := ProcessTracking(u, fov, dt);
      && (s.status == Waiting ==>
            s.tracker.currentPan == WaitingDecay * u.currentPan
            && s.tracker.currentTilt == WaitingDecay * u.currentTilt)
      && (s.status != Waiting ==>
            s.tracker.currentPan == u.currentPan && s.tracker.currentTilt == u.currentTilt)
      && s.tracker.currentBottom == u.currentBottom
  {
    var s := ProcessTracking(u, fov, dt);
    ActiveTick(u, fov, dt);
    if s.status == Waiting {
      WaitingTick(u, fov, dt);
    } else {
      NotFoundTick(u, fov, dt);
    }
  }

  /** Time steps that are all positive. */
  predicate Positive(dts: seq<real>)
  {
    forall i :: 0 <= i < |dts| ==> dts[i] > 0.0
  }

  /** No circle of the message is a ball: every size is zero or negative. */
  predicate NoBall(cs: seq<Point>)
  {
    forall i :: 0 <= i < |cs| ==> cs[i].z <= 0.0
  }

  /** Ticks, each with its own positive time step, and detection messages
      holding no ball, in any order: nothing that could bring the ball back
      or touch either flag. */
  predicate Quiet(evs: seq<Event>)
  {
    && WellTimed(evs)
    && forall i :: 0 <= i < |evs| ==> evs[i].Tick? || (evs[i].Detected? && NoBall(evs[i].circles))
  }

  /** The time steps of the ticks among `evs`, in order. */
  function TickTimes(evs: seq<Event>): (dts: seq<real>)
    requires WellTimed(evs)
    ensures Positive(dts) && |dts| <= |evs|
    decreases |evs|
  {
    if |evs| == 0 then []
    else
      var e := evs[|evs| - 1];
      TickTimes(evs[..|evs| - 1]) + (if e.Tick? then [e.dt] else [])
  }

  /** Consecutive ticks with the given time steps, as a recursion on them. */
  function Ticks(t: Tracker, dts: seq<real>, fov: FovMap): (r: Trace)
    requires Positive(dts)
    ensures |r.ticks| == |dts|
    decreases |dts|
  {
    if |dts| == 0 then Trace(t, [], []) else TickTrace(Ticks(t, dts[..|dts| - 1], fov), dts[|dts| - 1], fov)
  }

  /** The last of the ticks, split off. */
  lemma MissRunUnfold(t: Tracker, dts: seq<real>, fov: FovMap)
    requires Positive(dts) && |dts| > 0
    ensures var tr := Ticks(t, dts[..|dts| - 1], fov);
            var s := ProcessTracking(tr.tracker, fov, dts[|dts| - 1]);
            Ticks(t, dts, fov)
              == Trace(s.tracker, tr.out + s.out, tr.ticks + [TickLog(KindOf(tr.tracker), s.status, s.scanned)])
  {
  }

  /** Start of a miss streak: tracking, no ball held, right after a Found tick. */
  predicate JustFound(t: Tracker)
  {
    Missing(t) && t.status == Found && t.countNotFound == 0
  }

  /** The status of the `k`-th miss after a Found, from the tracker the
      previous `k - 1` misses left. */
  lemma LastMissStatus(u: Tracker, k: nat)
    requires k > 0 && u.countNotFound == Streak(k - 1)
    requires u.status == (if k - 1 == 0 then Found else if k - 1 < WaitingThreshold then Waiting else NotFound)
    ensures (u.countNotFound + 1 < WaitingThreshold && u.status != NotFound) <==> k < WaitingThreshold
  {
    if k <= WaitingThreshold {
      StreakSmall(k - 1);
    }
  }

  /** The tracker after `|dts|` ticks from `JustFound`. */
  lemma {:induction false} MissRunState(t: Tracker, dts: seq<real>, fov: FovMap)
    requires JustFound(t) && Positive(dts)
    ensures var r, k := Ticks(t, dts, fov), |dts|;
      && Missing(r.tracker) && r.tracker.useHeadScan == t.useHeadScan
      && r.tracker.countNotFound == Streak(k)
      && r.tracker.status == (if k == 0 then Found else if k < WaitingThreshold then Waiting else NotFound)
    decreases |dts|
  {
    if |dts| > 0 {
      var k, pre := |dts|, dts[..|dts| - 1];
      MissRunState(t, pre, fov);
      MissRunUnfold(t, dts, fov);
      var u := Ticks(t, pre, fov).tracker;
      MissStep(u, fov, dts[k - 1]);
      LastMissStatus(u, k);
    }
  }

  /** The log entry of the `i`-th (from 0) miss after a Found. */
  function MissLog(i: nat): TickLog
  {
    TickLog(Miss, if i + 1 < WaitingThreshold then Waiting else NotFound, Streak(i) == NotFoundThreshold)
  }

  /** The log entry of the last tick from `JustFound`. */
  lemma {:induction false} MissRunLastLog(t: Tracker, dts: seq<real>, fov: FovMap)
    requires JustFound(t) && Positive(dts) && |dts| > 0
    ensures Ticks(t, dts, fov).ticks[|dts| - 1] == MissLog(|dts| - 1)
  {
    var k, pre := |dts|, dts[..|dts| - 1];
    MissRunState(t, pre, fov);
    var tr := Ticks(t, pre, fov);
    var u := tr.tracker;
    var s := ProcessTracking(u, fov, dts[k - 1]);
    assert Ticks(t, dts, fov) == TickTrace(tr, dts[k - 1], fov);
    assert TickTrace(tr, dts[k - 1], fov).ticks[k - 1] == TickLog(KindOf(u), s.status, s.scanned);
    assert KindOf(u) == Miss;
    MissStep(u, fov, dts[k - 1]);
    LastMissStatus(u, k);
  }

  /** The log of the ticks from `JustFound`. */
  lemma {:induction false} MissRunLog(t: Tracker, dts: seq<real>, fov: FovMap)
    requires JustFound(t) && Positive(dts)
    ensures forall i :: 0 <= i < |dts| ==> Ticks(t, dts, fov).ticks[i] == MissLog(i)
    decreases |dts|
  {
    if |dts| > 0 {
      var k, pre := |dts|, dts[..|dts| - 1];
      MissRunLog(t, pre, fov);
      MissRunLastLog(t, dts, fov);
      var tr, r := Ticks(t, pre, fov), Ticks(t, dts, fov);
      assert r.ticks[..k - 1] == tr.ticks;
      assert forall i :: 0 <= i < k - 1 ==> r.ticks[i] == r.ticks[..k - 1][i];
    }
  }

  /** A tick on a `Missing` tracker adds one scan request to the trace's
      output exactly when it triggers the scan with scanning enabled. */
  lemma TickTraceScans(tr: Trace, dt: real, fov: FovMap)
    requires dt > 0.0 && Missing(tr.tracker)
    ensures var s := ProcessTracking(tr.tracker, fov, dt);
      multiset(TickTrace(tr, dt, fov).out)[Scan]
        == multiset(tr.out)[Scan] + (if s.scanned && tr.tracker.useHeadScan then 1 else 0)
  {
    var s := ProcessTracking(tr.tracker, fov, dt);
    MissStepScans(tr.tracker, fov, dt);
    assert multiset(tr.out + s.out)[Scan] == multiset(tr.out)[Scan] + multiset(s.out)[Scan];
  }

  /** The scan requests sent during the ticks from `JustFound`. */
  lemma {:induction false} MissRunScans(t: Tracker, dts: seq<real>, fov: FovMap)
    requires JustFound(t) && Positive(dts)
    ensures multiset(Ticks(t, dts, fov).out)[Scan] == if t.useHeadScan then ScansAfter(|dts|) else 0
    decreases |dts|
  {
    if |dts| > 0 {
      var pre := dts[..|dts| - 1];
      MissRunScans(t, pre, fov);
      MissRunState(t, pre, fov);
      var tr := Ticks(t, pre, fov);
      assert Ticks(t, dts, fov) == TickTrace(tr, dts[|dts| - 1], fov);
      MissStep(tr.tracker, fov, dts[|dts| - 1]);
      TickTraceScans(tr, dts[|dts| - 1], fov);
    }
  }

  /** The remembered error and size after the ticks from `JustFound`. */
  lemma {:induction false} MissRunMemory(t: Tracker, dts: seq<real>, fov: FovMap)
    requires JustFound(t) && Positive(dts)
    ensures var r, k := Ticks(t, dts, fov), |dts|;
      && r.tracker.currentPan == Decayed(t.currentPan, Min(k, WaitingThreshold - 1))
      && r.tracker.currentTilt == Decayed(t.currentTilt, Min(k, WaitingThreshold - 1))
      && r.tracker.currentBottom == t.currentBottom
    decreases |dts|
  {
    if |dts| > 0 {
      var k, pre := |dts|, dts[..|dts| - 1];
      MissRunMemory(t, pre, fov);
      MissRunState(t, pre, fov);
      MissRunUnfold(t, dts, fov);
      var u := Ticks(t, pre, fov).tracker;
      MissStep(u, fov, dts[k - 1]);
      MissStepMemory(u, fov, dts[k - 1]);
      if k <= WaitingThreshold {
        StreakSmall(k - 1);
      }
    }
  }

  /** A detection message holding no ball leaves a tracker holding none as
      it is: a circle replaces the held one only when strictly larger. */
  lemma NoBallIsNoOp(u: Tracker, cs: seq<Point>)
    requires Missing(u) && NoBall(cs)
    ensures BallPositionCallback(u, cs) == u
  {
  }

  /** From `JustFound`, a quiet run is exactly its ticks: the detection
      messages in between change nothing. */
  lemma {:induction false} QuietIsTicks(t: Tracker, evs: seq<Event>, fov: FovMap)
    requires JustFound(t) && Quiet(evs)
    ensures Run(t, evs, fov) == Ticks(t, TickTimes(evs), fov)
    decreases |evs|
  {
    if |evs| > 0 {
      var pre, e := evs[..|evs| - 1], evs[|evs| - 1];
      assert Quiet(pre);
      QuietIsTicks(t, pre, fov);
      var dts := TickTimes(pre);
      assert Run(t, evs, fov) == Apply(Run(t, pre, fov), e, fov);
      if e.Tick? {
        assert TickTimes(evs) == dts + [e.dt];
        assert TickTimes(evs)[..|dts|] == dts;
      } else {
        assert TickTimes(evs) == dts;
        MissRunState(t, dts, fov);
        NoBallIsNoOp(Ticks(t, dts, fov).tracker, e.circles);
      }
    }
  }

  /** After a Found tick, with any time steps and no ball in any detection
      message: misses 1 to 4 are Waiting and every later one NotFound; the
      counter is the number of misses modulo 51; the scan fires exactly on
      every 51st miss and is sent only when enabled; the remembered error
      decays by 0.7 on each Waiting tick and is frozen afterwards; the
      remembered size never changes. */
  lemma {:induction false} MissesAfterFound(t: Tracker, evs: seq<Event>, fov: FovMap)
    requires JustFound(t) && Quiet(evs)
    ensures var r, k := Run(t, evs, fov), |TickTimes(evs)|;
      && |r.ticks| == k
      && r.tracker.countNotFound == k % 51
      && (forall i :: 0 <= i < k ==> r.ticks[i].kind == Miss)
      && (forall i :: 0 <= i < k ==>
            r.ticks[i].status == if i + 1 < WaitingThreshold then Waiting else NotFound)
      && (forall i :: 0 <= i < k ==> (r.ticks[i].scanned <==> (i + 1) % 51 == 0))
      && multiset(r.out)[Scan] == (if t.useHeadScan then k / 51 else 0)
      && r.tracker.currentPan == Decayed(t.currentPan, Min(k, WaitingThreshold - 1))
      && r.tracker.currentTilt == Decayed(t.currentTilt, Min(k, WaitingThreshold - 1))
      && r.tracker.currentBottom == t.currentBottom
  {
    var dts := TickTimes(evs);
    var k := |dts|;
    QuietIsTicks(t, evs, fov);
    MissRunState(t, dts, fov);
    MissRunLog(t, dts, fov);
    MissRunScans(t, dts, fov);
    MissRunMemory(t, dts, fov);
    StreakIsMod(k);
    forall i | 0 <= i < k
      ensures MissLog(i).scanned <==> (i + 1) % 51 == 0
    {
      StreakIsMod(i);
      ModStep(i);
    }
  }

  /** Waiting only ever follows a Found: starting from a stored NotFound,
      every Waiting tick of any run has an earlier Found tick. */
  lemma {:induction false} WaitingNeedsFound(t: Tracker, evs: seq<Event>, fov: FovMap)
    requires WellTimed(evs) && t.status == NotFound
    ensures var r := Run(t, evs, fov);
      && (r.tracker.status != NotFound ==> exists j :: 0 <= j < |r.ticks| && r.ticks[j].status == Found)
      && forall i :: 0 <= i < |r.ticks| && r.ticks[i].status == Waiting ==>
           exists j :: 0 <= j < i && r.ticks[j].status == Found
    decreases |evs|
  {
    if |evs| > 0 {
      var pre := evs[..|evs| - 1];
      assert WellTimed(pre);
      var tr := Run(t, pre, fov);
      WaitingNeedsFound(t, pre, fov);
      var e := evs[|evs| - 1];
      var r := Apply(tr, e, fov);
      assert r == Run(t, evs, fov);
      StatusStep(tr, e, fov);
      var n := |tr.ticks|;
      assert forall j :: 0 <= j < n ==> r.ticks[j] == tr.ticks[j];
    }
  }

  /** One event moves the stored status away from NotFound only through a
      Found tick, and a Waiting tick needs a stored Found or Waiting. */
  lemma StatusStep(tr: Trace, e: Event, fov: FovMap)
    requires e.Tick? ==> e.dt > 0.0
    ensures var r := Apply(tr, e, fov);
      && (r.tracker.status != NotFound ==>
            tr.tracker.status != NotFound || (|r.ticks| > |tr.ticks| && r.ticks[|tr.ticks|].status == Found))
      && (|r.ticks| > |tr.ticks| && r.ticks[|tr.ticks|].status == Waiting ==> tr.tracker.status != NotFound)
  {
    if e.Tick? {
      var s := ProcessTracking(tr.tracker, fov, e.dt);
      assert Apply(tr, e, fov).ticks[|tr.ticks|] == TickLog(KindOf(tr.tracker), s.status, s.scanned);
    }
  }

  /** A tick that ran the detection check and came out NotFound: the only
      kind of tick that stores NotFound (an inactive tick only returns it). */
  predicate ActiveNotFound(l: TickLog)
  {
    l.kind != Inactive && l.status == NotFound
  }

  /** Between an active NotFound tick and any later Waiting tick there is a
      Found tick. */
  ghost predicate FoundBetween(ticks: seq<TickLog>)
  {
    forall i, j :: 0 <= i < j < |ticks| && ActiveNotFound(ticks[i]) && ticks[j].status == Waiting ==>
      exists m :: i < m < j && ticks[m].status == Found
  }

  /** While the stored status is not NotFound, every active NotFound tick has
      been followed by a Found tick. */
  ghost predicate FoundSince(tr: Trace)
  {
    tr.tracker.status != NotFound ==>
      forall i :: 0 <= i < |tr.ticks| && ActiveNotFound(tr.ticks[i]) ==>
        exists m :: i < m < |tr.ticks| && tr.ticks[m].status == Found
  }

  /** How one event moves the stored status: only an active tick changes
      it, to the status that tick logs. */
  lemma StoredStatusStep(tr: Trace, e: Event, fov: FovMap)
    requires e.Tick? ==> e.dt > 0.0
    ensures var r, n := Apply(tr, e, fov), |tr.ticks|;
      && (!e.Tick? ==> r.ticks == tr.ticks && r.tracker.status == tr.tracker.status)
      && (e.Tick? && !tr.tracker.onTracking ==>
            r.ticks[n].kind == Inactive && r.tracker.status == tr.tracker.status)
      && (e.Tick? && tr.tracker.onTracking ==>
            r.ticks[n].kind != Inactive && r.tracker.status == r.ticks[n].status)
  {
    var r, n := Apply(tr, e, fov), |tr.ticks|;
    if e.Tick? {
      var s := ProcessTracking(tr.tracker, fov, e.dt);
      assert r.ticks[n] == TickLog(KindOf(tr.tracker), s.status, s.scanned);
      if !tr.tracker.onTracking {
        InactiveTick(tr.tracker, fov, e.dt);
      }
    } else {
      assert r.ticks[..n] == r.ticks;
    }
  }

  /** One event keeps a Found tick between every active NotFound tick and
      any later Waiting tick. */
  lemma FoundBetweenStep(tr: Trace, e: Event, fov: FovMap)
    requires e.Tick? ==> e.dt > 0.0
    requires FoundBetween(tr.ticks) && FoundSince(tr)
    ensures FoundBetween(Apply(tr, e, fov).ticks) && FoundSince(Apply(tr, e, fov))
  {
    var r, n := Apply(tr, e, fov), |tr.ticks|;
    StoredStatusStep(tr, e, fov);
    StatusStep(tr, e, fov);
    assert forall k :: 0 <= k < n ==> r.ticks[k] == tr.ticks[k];
    if e.Tick? {
      forall i, j | 0 <= i < j < |r.ticks| && ActiveNotFound(r.ticks[i]) && r.ticks[j].status == Waiting
        ensures exists m :: i < m < j && r.ticks[m].status == Found
      {
        if j < n {
          var m :| i < m < j && tr.ticks[m].status == Found;
          assert r.ticks[m].status == Found;
        } else {
          assert ActiveNotFound(tr.ticks[i]);
          var m :| i < m < n && tr.ticks[m].status == Found;
          assert r.ticks[m].status == Found;
        }
      }
      if r.tracker.status != NotFound {
        forall i | 0 <= i < |r.ticks| && ActiveNotFound(r.ticks[i])
          ensures exists m :: i < m < |r.ticks| && r.ticks[m].status == Found
        {
          if r.ticks[n].status == Found && i < n {
            assert r.ticks[n].status == Found;
          } else {
            assert ActiveNotFound(tr.ticks[i]);
            var m :| i < m < n && tr.ticks[m].status == Found;
            assert r.ticks[m].status == Found;
          }
        }
      }
    }
  }

  /** Waiting never follows a stored NotFound without a Found in between: in
      any run, from any tracker, a Found tick lies between every active
      NotFound tick and every later Waiting tick. */
  lemma {:induction false} FoundBeforeWaiting(t: Tracker, evs: seq<Event>, fov: FovMap)
    requires WellTimed(evs)
    ensures FoundBetween(Run(t, evs, fov).ticks) && FoundSince(Run(t, evs, fov))
    decreases |evs|
  {
    if |evs| > 0 {
      var pre := evs[..|evs| - 1];
      assert WellTimed(pre);
      FoundBeforeWaiting(t, pre, fov);
      assert Run(t, evs, fov) == Apply(Run(t, pre, fov), evs[|evs| - 1], fov);
      FoundBetweenStep(Run(t, pre, fov), evs[|evs| - 1], fov);
    }
  }

  /** A run extended by one event. */
  lemma RunSnoc(t: Tracker, evs: seq<Event>, e: Event, fov: FovMap)
    requires WellTimed(evs + [e])
    ensures WellTimed(evs)
    ensures Run(t, evs + [e], fov) == Apply(Run(t, evs, fov), e, fov)
  {
    assert (evs + [e])[..|evs|] == evs;
    assert forall i :: 0 <= i < |evs| ==> evs[i] == (evs + [e])[i];
  }

  /** A stop after a Found tick, then a tick: the tick is logged inactive
      and NotFound, while the stored status stays Found. */
  lemma StoppedTick(t: Tracker, fov: FovMap, dt: real)
    requires t.onTracking && t.status == Found && IsMiss(t) && dt > 0.0
    ensures var r := Run(t, [Command("stop"), Tick(dt)], fov);
      && r.ticks == [TickLog(Inactive, NotFound, false)]
      && !r.tracker.onTracking && r.tracker.status == Found
      && r.tracker.countNotFound == 0 && IsMiss(r.tracker)
  {
    var e1 := [Command("stop")];
    assert e1 + [Tick(dt)] == [Command("stop"), Tick(dt)];
    RunSnoc(t, e1, Tick(dt), fov);
    RunSnoc(t, [], Command("stop"), fov);
    var r1 := Run(t, e1, fov);
    assert r1.ticks == [] && !r1.tracker.onTracking && r1.tracker.status == Found;
    InactiveTick(r1.tracker, fov, dt);
  }

  /** Stopping does not reset the stored status: after a Found tick, a stop,
      an inactive tick and a start, the very first miss is Waiting. */
  lemma RestartResumesWaiting(t: Tracker, fov: FovMap, dt1: real, dt2: real)
    requires t.onTracking && t.status == Found && IsMiss(t) && dt1 > 0.0 && dt2 > 0.0
    ensures var r := Run(t, [Command("stop"), Tick(dt1), Command("start"), Tick(dt2)], fov);
      && |r.ticks| == 2
      && r.ticks[0] == TickLog(Inactive, NotFound, false)
      && r.ticks[1] == TickLog(Miss, Waiting, false)
  {
    var e2 := [Command("stop"), Tick(dt1)];
    var e3 := e2 + [Command("start")];
    assert e3 + [Tick(dt2)] == [Command("stop"), Tick(dt1), Command("start"), Tick(dt2)];
    RunSnoc(t, e3, Tick(dt2), fov);
    RunSnoc(t, e2, Command("start"), fov);
    StoppedTick(t, fov, dt1);
    var r2 := Run(t, e2, fov);
    var r3 := Run(t, e3, fov);
    assert r3.ticks == r2.ticks && r3.tracker == r2.tracker.(onTracking := true);
  }
}
