/** Invariants of the navigator over every run. */
module NavigatorSafety {
  import opened Common
  import opened Kinematics
  import opened NavigatorModel
  import opened NavigatorTrace

  /** What holds during a navigation wherever the route coroutine stands. */
  ghost predicate RunOk(cfg: Config, s: State) {
    && s.navigating && ValidRoute(s.route)
    && TraceOk(cfg, s.route, s.trace) && !(s.trace.Then? && s.trace.last.Ended?)
    && s.blockedAt == s.detectedAt == EpisodeStart(s.trace) && (s.blocked <==> s.blockedAt.Some?)
    && s.timer == ArmedSince(s.trace) && (s.timer.Some? ==> s.blocked && !s.manualNeeded)
    && s.count == Strikes(s.trace) && s.count >= (if s.blocked then 1 else 0)
    && (s.manualNeeded <==> s.blocked && s.count >= cfg.repeatCount)
    && s.completed == |Arrivals(s.trace)| && s.completed <= |s.route|
    && (s.blockedAt.Some? ==> s.blockedAt.value <= s.now)
    && (s.rampAt.Some? ==> s.rampAt.value <= s.now)
  }

  ghost predicate DrivingTo(s: State, i: nat) {
    i == s.completed && i < |s.route| && MayLeave(s.route, s.trace, i)
  }

  ghost predicate HoldingAt(s: State, i: nat) {
    i + 1 == s.completed && i < |s.route| && s.route[i].hold && (s.holdSet ==> ReleasedSinceArrival(s.trace))
  }

  ghost predicate PcOk(cfg: Config, s: State) {
    && (match s.pc
        case Idle => false
        case Polling(i) => DrivingTo(s, i)
        case DriveSleep(i, _) => DrivingTo(s, i)
        case HoldWait(i, _) => HoldingAt(s, i)
        case BlockedSleep(i, inHold, wakeAt) =>
          && (if inHold then HoldingAt(s, i) else DrivingTo(s, i))
          && (s.blocked && s.blockedAt.Some? ==> wakeAt < s.blockedAt.value + cfg.holdTimeout + LOOP_SECONDS))
    && (Deadline(s.pc).Some? ==>
          s.now <= Deadline(s.pc).value + cfg.lateness && Deadline(s.pc).value <= s.now + LOOP_SECONDS)
  }

  ghost predicate RestOk(cfg: Config, s: State) {
    && !s.navigating && s.pc.Idle? && s.target == STILL && !s.blocked && s.timer.None?
    && TraceOk(cfg, s.route, s.trace) && s.completed == |Arrivals(s.trace)|
    && (s.trace.Then? ==> s.trace.last.Ended? && (s.trace.last.outcome.Success? ==> s.completed == |s.route|))
  }

  ghost predicate Inv(cfg: Config, s: State) {
    if s.navigating then RunOk(cfg, s) && PcOk(cfg, s) else RestOk(cfg, s)
  }

  lemma FinishKeeps(cfg: Config, s: State, outcome: Outcome)
    requires RunOk(cfg, s)
    requires outcome.Success? ==> s.completed == |s.route| && MayLeave(s.route, s.trace, |s.route|)
    ensures Inv(cfg, Finish(s, outcome))
  {
  }

  lemma CheckBlockedKeeps(cfg: Config, s: State, i: nat, inHold: bool)
    requires ValidConfig(cfg) && RunOk(cfg, s) && s.blocked
    requires if inHold then HoldingAt(s, i) else DrivingTo(s, i)
    ensures Inv(cfg, CheckBlocked(cfg, s, i, inHold))
  {
    FinishKeeps(cfg, s, Cancelled);
    FinishKeeps(cfg, s, Blocked);
  }

  lemma CheckHoldKeeps(cfg: Config, s: State, i: nat)
    requires ValidConfig(cfg) && RunOk(cfg, s) && HoldingAt(s, i)
    ensures Inv(cfg, CheckHold(cfg, s, i))
  {
    FinishKeeps(cfg, s, Cancelled);
    if s.blocked {
      CheckBlockedKeeps(cfg, s, i, true);
    }
  }

  lemma ArriveKeeps(cfg: Config, s: State, i: nat)
    requires RunOk(cfg, s) && DrivingTo(s, i)
    ensures var s' := Arrive(s, i);
            RunOk(cfg, s') && s'.route == s.route && s'.completed == i + 1
            && (s.route[i].hold ==> HoldingAt(s', i)) && (!s.route[i].hold ==> MayLeave(s.route, s'.trace, i + 1))
  {
  }

  lemma SetTargetKeeps(cfg: Config, s: State, i: nat, r: Reading)
    requires ValidConfig(cfg) && RunOk(cfg, s) && DrivingTo(s, i) && ReadingFor(r, s.route)
    ensures Inv(cfg, SetTarget(cfg, s, i, r))
  {
    var (ramp, rampAt) := RampFactor(s.rampAt, cfg.resumeRamp, s.now);
    RampFactorRange(s.rampAt, cfg.resumeRamp, s.now);
    assert s.route[i] in s.route && r.distances[i] in r.distances;
    CommandIsBounded(cfg.limits, s.route[i].velocity, r.distances[i], r.bearings[i], r.yaw, ramp);
  }

  lemma {:induction false} UseReadingKeeps(cfg: Config, s: State, i: nat, r: Reading, cached: Option<Reading>)
    requires ValidConfig(cfg) && RunOk(cfg, s) && DrivingTo(s, i) && ReadingFor(r, s.route) && CacheFor(cached, s.route)
    ensures Inv(cfg, UseReading(cfg, s, i, r, cached))
    decreases |s.route| - i, 0
  {
    if !r.connectionOk {
      FinishKeeps(cfg, s, Failed);
    } else if r.distances[i] > cfg.tolerance {
      SetTargetKeeps(cfg, s, i, r);
    } else {
      ArriveKeeps(cfg, s, i);
      if s.route[i].hold {
        CheckHoldKeeps(cfg, Arrive(s, i), i);
      } else {
        DriveKeeps(cfg, Arrive(s, i), i + 1, cached);
      }
    }
  }

  lemma {:induction false} DriveKeeps(cfg: Config, s: State, i: nat, cached: Option<Reading>)
    requires ValidConfig(cfg) && RunOk(cfg, s) && i == s.completed && MayLeave(s.route, s.trace, i)
             && CacheFor(cached, s.route)
    ensures Inv(cfg, Drive(cfg, s, i, cached))
    decreases |s.route| - i, 2
  {
    if i == |s.route| {
      FinishKeeps(cfg, s, Success);
    } else if s.cancelled {
      FinishKeeps(cfg, s, Cancelled);
    } else if s.blocked {
      CheckBlockedKeeps(cfg, s, i, false);
    } else {
      ObserveKeeps(cfg, s, i, cached);
    }
  }

  lemma {:induction false} ObserveKeeps(cfg: Config, s: State, i: nat, cached: Option<Reading>)
    requires ValidConfig(cfg) && RunOk(cfg, s) && DrivingTo(s, i) && CacheFor(cached, s.route)
    ensures Inv(cfg, Observe(cfg, s, i, cached))
    decreases |s.route| - i, 1
  {
    if cached.Some? {
      UseReadingKeeps(cfg, s, i, cached.value, cached);
    }
  }

  lemma WakeBlockedKeeps(cfg: Config, s: State, cached: Option<Reading>)
    requires ValidConfig(cfg) && Inv(cfg, s) && Enabled(cfg, s, WakeBlocked(cached))
    ensures Inv(cfg, Effect(cfg, s, WakeBlocked(cached)))
  {
    if s.blocked {
      CheckBlockedKeeps(cfg, s, s.pc.i, s.pc.inHold);
    } else if !s.pc.inHold {
      ObserveKeeps(cfg, s, s.pc.i, cached);
    }
  }

  lemma HoldKeeps(cfg: Config, s: State, a: Action)
    requires ValidConfig(cfg) && Inv(cfg, s) && Enabled(cfg, s, a) && (a.HoldReleased? || a.HoldTimedOut?)
    ensures Inv(cfg, Effect(cfg, s, a))
  {
    if a.HoldReleased? && s.cancelled {
      FinishKeeps(cfg, s, Cancelled);
    } else if s.holdSet {
      DriveKeeps(cfg, s, s.pc.i + 1, a.cached);
    } else {
      CheckHoldKeeps(cfg, s, s.pc.i);
    }
  }

  lemma DetectKeeps(cfg: Config, s: State)
    requires ValidConfig(cfg) && Inv(cfg, s) && s.navigating
    ensures Inv(cfg, Detect(cfg, s))
  {
  }

  lemma ClearKeepsRun(cfg: Config, s: State, manual: bool)
    requires ValidConfig(cfg) && RunOk(cfg, s) && s.blocked
    ensures RunOk(cfg, Clear(cfg, s, manual))
  {
  }

  /** A handler that logs something other than an arrival leaves the route coroutine where it is. */
  lemma PcStays(cfg: Config, s: State, later: State, e: Entry)
    requires PcOk(cfg, s) && later.trace == Then(s.trace, e) && !e.Arrived?
    requires later.pc == s.pc && later.route == s.route && later.completed == s.completed && later.now == s.now
    requires later.holdSet == s.holdSet && (later.blocked ==> s.blocked && later.blockedAt == s.blockedAt)
    ensures PcOk(cfg, later)
  {
  }

  lemma ClearKeepsPc(cfg: Config, s: State, manual: bool)
    requires ValidConfig(cfg) && RunOk(cfg, s) && PcOk(cfg, s) && s.blocked
    ensures PcOk(cfg, Clear(cfg, s, manual))
  {
    var later := Clear(cfg, s, manual);
    if later != s {
      PcStays(cfg, s, later, later.trace.last);
    }
  }

  lemma TimerKeeps(cfg: Config, s: State)
    requires ValidConfig(cfg) && Inv(cfg, s) && Enabled(cfg, s, TimerFired)
    ensures Inv(cfg, Effect(cfg, s, TimerFired))
  {
  }

  lemma SignalKeeps(cfg: Config, s: State, a: Action)
    requires ValidConfig(cfg) && Inv(cfg, s) && Enabled(cfg, s, a)
             && (a.HumanConfirmed? || a.CancelNavigation? || a.Tick?)
    ensures Inv(cfg, Effect(cfg, s, a))
  {
  }

  lemma StepKeeps(cfg: Config, s: State, a: Action)
    requires ValidConfig(cfg) && Inv(cfg, s)
    ensures Inv(cfg, Step(cfg, s, a))
  {
    if Enabled(cfg, s, a) {
      match a
      case Start(route, cached) => if !s.navigating { DriveKeeps(cfg, Begun(s, route), 0, cached); }
      case WakeDrive(cached) => DriveKeeps(cfg, s, s.pc.i, cached);
      case WakeBlocked(cached) => WakeBlockedKeeps(cfg, s, cached);
      case PollReturned(r, cached) => UseReadingKeeps(cfg, s, s.pc.i, r, cached);
      case PollRaised => FinishKeeps(cfg, s, Failed);
      case ObstacleDetected(mine) => if s.navigating && mine { DetectKeeps(cfg, s); }
      case ObstacleCleared(mine, manual) => 
        if s.navigating && s.blocked && mine {
          ClearKeepsRun(cfg, s, manual);
          ClearKeepsPc(cfg, s, manual);
        }
      case TimerFired => TimerKeeps(cfg, s);
      case HoldReleased(_) => HoldKeeps(cfg, s, a);
      case HoldTimedOut(_) => HoldKeeps(cfg, s, a);
      case _ => SignalKeeps(cfg, s, a);
    }
  }

  lemma {:induction false} RunKeeps(cfg: Config, actions: seq<Action>)
    requires ValidConfig(cfg)
    ensures Inv(cfg, Run(cfg, actions))
  {
    if actions != [] {
      RunKeeps(cfg, actions[..|actions| - 1]);
      StepKeeps(cfg, Run(cfg, actions[..|actions| - 1]), actions[|actions| - 1]);
    }
  }

  /** While navigating, a manual confirmation is required exactly when the robot is blocked and the obstacle count
      has reached the threshold; the count is the number of episodes less the spurious ones and is never clamped. */
  lemma ManualExactlyAtThreshold(cfg: Config, actions: seq<Action>)
    requires ValidConfig(cfg) && Run(cfg, actions).navigating
    ensures var s := Run(cfg, actions);
            && (s.manualNeeded <==> s.blocked && s.count >= cfg.repeatCount)
            && s.count == Episodes(s.trace) - SpuriousClears(s.trace) >= (if s.blocked then 1 else 0)
  {
    RunKeeps(cfg, actions);
  }

  /** A pending stable-clear timer implies that the robot is blocked and needs no manual confirmation. */
  lemma PendingTimerMeansBlocked(cfg: Config, actions: seq<Action>)
    requires ValidConfig(cfg) && Run(cfg, actions).timer.Some?
    ensures var s := Run(cfg, actions);
            s.navigating && s.blocked && !s.manualNeeded && s.timer == ArmedSince(s.trace)
  {
    RunKeeps(cfg, actions);
  }

  /** The trace of every run is in order: see NavigatorTrace for what that rules out. */
  lemma EveryTraceIsOk(cfg: Config, actions: seq<Action>)
    requires ValidConfig(cfg)
    ensures var s := Run(cfg, actions);
            && TraceOk(cfg, s.route, s.trace)
            && s.completed == |Arrivals(s.trace)|
            && (!s.navigating && s.trace.Then? && s.trace.last == Ended(Success) ==> s.completed == |s.route|)
  {
    RunKeeps(cfg, actions);
  }

  /** Re-detections do not move the start of an episode, and the route loop's next look at a blocked robot is due less
      than the hold timeout and one loop period after it; only the lateness of the wake-up comes on top. */
  lemma BlockedWaitIsBounded(cfg: Config, actions: seq<Action>)
    requires ValidConfig(cfg)
    requires var s := Run(cfg, actions); s.pc.BlockedSleep? && s.blocked
    ensures var s := Run(cfg, actions);
            && s.blockedAt.Some? && s.blockedAt == EpisodeStart(s.trace)
            && s.pc.wakeAt - s.blockedAt.value < cfg.holdTimeout + LOOP_SECONDS
            && s.now <= s.pc.wakeAt + cfg.lateness
  {
    RunKeeps(cfg, actions);
  }

  /** A second route is refused while one is in progress, and nothing changes. */
  lemma SecondRouteIsRefused(cfg: Config, actions: seq<Action>, route: seq<Waypoint>, cached: Option<Reading>)
    requires ValidConfig(cfg)
    ensures var s := Run(cfg, actions);
            && (s.navigating ==> Step(cfg, s, Start(route, cached)) == s)
            && (s.navigating <==> !s.pc.Idle?)
  {
    RunKeeps(cfg, actions);
  }
}
