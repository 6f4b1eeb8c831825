/** When the heartbeat target of a blocked robot may be a moving one: exactly where the coroutine acts on what it knew
    before it was suspended, and then for how long. */
module NavigatorMotion {
  import opened Common
  import opened Kinematics
  import opened NavigatorModel
  import opened NavigatorTrace
  import opened NavigatorSafety

  /** The commanded target is harmless: a robot with a moving target is navigating and not blocked. */
  predicate Safe(s: State) {
    s.target != STILL ==> s.navigating && !s.blocked
  }

  /** A reading that sets the robot in motion: telemetry is up, the waypoint is not reached, and it is not the first
      instant of a ramp with the heading right. */
  predicate CommandsMotion(cfg: Config, s: State, i: nat, r: Reading)
    requires i < |s.route| && ReadingFor(r, s.route)
  {
    && r.connectionOk && r.distances[i] > cfg.tolerance
    && (RampFactor(s.rampAt, cfg.resumeRamp, s.now).0 != 0.0 || NormalizeAngle(r.bearings[i] - r.yaw) != 0.0)
  }

  lemma FarReadingMoves(cfg: Config, s: State, i: nat, r: Reading)
    requires ValidConfig(cfg) && ValidRoute(s.route) && i < |s.route| && ReadingFor(r, s.route)
    requires r.connectionOk && r.distances[i] > cfg.tolerance
    ensures SetTarget(cfg, s, i, r).target != STILL <==> CommandsMotion(cfg, s, i, r)
  {
    assert s.route[i] in s.route;
    var ramp := RampFactor(s.rampAt, cfg.resumeRamp, s.now).0;
    CommandIsStillExactly(cfg.limits, s.route[i].velocity, r.distances[i], r.bearings[i], r.yaw, ramp);
  }

  lemma {:induction false} DriveIsSafe(cfg: Config, s: State, i: nat, cached: Option<Reading>)
    requires ValidConfig(cfg) && ValidRoute(s.route)
    requires i <= |s.route| && CacheFor(cached, s.route) && s.navigating && Safe(s)
    ensures Safe(Drive(cfg, s, i, cached))
    decreases |s.route| - i, 2
  {
    if i < |s.route| && !s.cancelled && !s.blocked && cached.Some? {
      UseReadingIsSafe(cfg, s, i, cached.value, cached);
    }
  }

  lemma {:induction false} UseReadingIsSafe(cfg: Config, s: State, i: nat, r: Reading, cached: Option<Reading>)
    requires ValidConfig(cfg) && ValidRoute(s.route)
    requires i < |s.route| && ReadingFor(r, s.route) && CacheFor(cached, s.route) && s.navigating && Safe(s)
    ensures Safe(UseReading(cfg, s, i, r, cached)) <==> !(s.blocked && CommandsMotion(cfg, s, i, r))
    decreases |s.route| - i, 0
  {
    if r.connectionOk {
      if r.distances[i] > cfg.tolerance {
        FarReadingMoves(cfg, s, i, r);
      } else if !s.route[i].hold {
        DriveIsSafe(cfg, Arrive(s, i), i + 1, cached);
      }
    }
  }

  /** The exact condition for a step to keep the target harmless: it is not a poll that returns to a robot
      blocked meanwhile with a reading that sets it in motion. */
  lemma StepIsSafeExactlyUnless(cfg: Config, s: State, a: Action)
    requires ValidConfig(cfg) && Inv(cfg, s) && Safe(s)
    ensures Safe(Step(cfg, s, a)) <==>
            !(a.PollReturned? && Enabled(cfg, s, a) && s.blocked && CommandsMotion(cfg, s, s.pc.i, a.reading))
  {
    if Enabled(cfg, s, a) {
      match a
      case Start(route, cached) => if !s.navigating { DriveIsSafe(cfg, Begun(s, route), 0, cached); }
      case WakeDrive(cached) => DriveIsSafe(cfg, s, s.pc.i, cached);
      case WakeBlocked(cached) =>
        if !s.blocked && !s.pc.inHold && cached.Some? {
          UseReadingIsSafe(cfg, s, s.pc.i, cached.value, cached);
        }
      case HoldReleased(cached) => if !s.cancelled { DriveIsSafe(cfg, s, s.pc.i + 1, cached); }
      case HoldTimedOut(cached) => if s.holdSet { DriveIsSafe(cfg, s, s.pc.i + 1, cached); }
      case PollReturned(r, cached) => UseReadingIsSafe(cfg, s, s.pc.i, r, cached);
      case _ =>
    }
  }

  /** With telemetry always cached, at every suspension point of every run a moving target implies navigating and
      not blocked. */
  lemma {:induction false} CachedRunsAreSafe(cfg: Config, actions: seq<Action>)
    requires ValidConfig(cfg)
    requires forall a :: a in actions ==> !a.PollReturned?
    ensures Safe(Run(cfg, actions))
  {
    if actions != [] {
      var before := actions[..|actions| - 1];
      CachedRunsAreSafe(cfg, before);
      RunKeeps(cfg, before);
      StepIsSafeExactlyUnless(cfg, Run(cfg, before), actions[|actions| - 1]);
    }
  }

  /** The failing case exists under every configuration: an obstacle is detected while the first poll is under way
      and the robot is then told to move although it is blocked. */
  lemma PollMayMoveABlockedRobot(cfg: Config)
    requires ValidConfig(cfg)
    ensures var route := [Waypoint(false, 1.0)];
            var reading := Reading(true, [cfg.tolerance + 1.0], [0.0], 0.0);
            var s := Run(cfg, [Start(route, None), ObstacleDetected(true), PollReturned(reading, Some(reading))]);
            s.navigating && s.blocked && s.target.vx > 0.0
  {
    var route := [Waypoint(false, 1.0)];
    var reading := Reading(true, [cfg.tolerance + 1.0], [0.0], 0.0);
    var a, b, c := Start(route, None), ObstacleDetected(true), PollReturned(reading, Some(reading));
    assert [a, b, c][..2] == [a, b] && [a, b][..1] == [a] && [a][..0] == [];
    var s1 := Run(cfg, [a]);
    assert Run(cfg, []) == INITIAL;
    assert s1 == Observe(cfg, Begun(INITIAL, route), 0, None);
    var s2 := Run(cfg, [a, b]);
    assert s2 == Detect(cfg, s1);
    assert Run(cfg, [a, b, c]) == UseReading(cfg, s2, 0, reading, Some(reading));
  }

  // ---------- how long it lasts ----------

  /** Blocked and told to move, between that and the next look at the block or at a later one. */
  predicate Drifting(s: State) {
    && s.navigating && s.blocked && s.target != STILL
    && (s.pc.DriveSleep? || (s.pc.BlockedSleep? && !s.pc.inHold))
  }

  /** What stops a blocked robot that is told to move, or makes it one that may: a further detection, a clearance that
      is accepted at once, the timer, a cancel, or the coroutine's look at the block once it is cancelled or out of
      time. */
  predicate StopsDrift(cfg: Config, s: State, a: Action) {
    match a
    case ObstacleDetected(mine) => mine
    case ObstacleCleared(mine, manual) =>
      mine && (manual || (!s.manualNeeded && s.detectedAt.Some? && s.now - s.detectedAt.value < cfg.minHold))
    case CancelNavigation => true
    case TimerFired => true
    case WakeDrive(_) => s.cancelled || (s.blockedAt.Some? && s.now - s.blockedAt.value >= cfg.holdTimeout)
    case WakeBlocked(_) => s.cancelled || (s.blockedAt.Some? && s.now - s.blockedAt.value >= cfg.holdTimeout)
    case _ => false
  }

  /** Nothing else does: until then the target stays the same. */
  lemma DriftEndsExactly(cfg: Config, s: State, a: Action)
    requires Inv(cfg, s) && Drifting(s)
    ensures var later := Step(cfg, s, a);
            && (Safe(later) <==> Enabled(cfg, s, a) && StopsDrift(cfg, s, a))
            && (!Safe(later) ==> Drifting(later) && later.target == s.target && later.blockedAt == s.blockedAt)
  {
  }

  lemma FirstUnsafeStep(cfg: Config, s: State, a: Action)
    requires ValidConfig(cfg) && Inv(cfg, s) && Safe(s) && !Safe(Step(cfg, s, a))
    ensures a.PollReturned? && Enabled(cfg, s, a) && Drifting(Step(cfg, s, a))
    ensures Step(cfg, s, a) == SetTarget(cfg, s, s.pc.i, a.reading)
  {
    StepIsSafeExactlyUnless(cfg, s, a);
  }

  /** In every reachable state the target is harmless or the robot drifts. */
  lemma {:induction false} UnsafeMeansDrifting(cfg: Config, actions: seq<Action>)
    requires ValidConfig(cfg)
    ensures !Safe(Run(cfg, actions)) ==> Drifting(Run(cfg, actions))
  {
    if actions != [] {
      var before, a := actions[..|actions| - 1], actions[|actions| - 1];
      UnsafeMeansDrifting(cfg, before);
      RunKeeps(cfg, before);
      if Safe(Run(cfg, before)) {
        if !Safe(Run(cfg, actions)) {
          FirstUnsafeStep(cfg, Run(cfg, before), a);
        }
      } else {
        DriftEndsExactly(cfg, Run(cfg, before), a);
      }
    }
  }

  /** Drifting ever since. */
  ghost predicate DriftsSince(cfg: Config, start: State, later: State) {
    && Inv(cfg, later) && Drifting(later) && later.target == start.target && later.blockedAt == start.blockedAt
    && (later.pc.DriveSleep? ==> later.pc.wakeAt <= start.now + LOOP_SECONDS)
  }

  lemma DriftKeepsDeadline(cfg: Config, s: State, a: Action)
    requires Inv(cfg, s) && Drifting(s) && Step(cfg, s, a).pc.DriveSleep?
    requires !Safe(Step(cfg, s, a))
    ensures s.pc == Step(cfg, s, a).pc
  {
  }

  lemma DriftStep(cfg: Config, start: State, s: State, a: Action)
    requires ValidConfig(cfg) && DriftsSince(cfg, start, s) && !Safe(Step(cfg, s, a))
    ensures DriftsSince(cfg, start, Step(cfg, s, a))
  {
    StepKeeps(cfg, s, a);
    DriftEndsExactly(cfg, s, a);
    if Step(cfg, s, a).pc.DriveSleep? {
      DriftKeepsDeadline(cfg, s, a);
    }
  }

  /** The target stays unsafe throughout. */
  ghost predicate StaysUnsafe(cfg: Config, s: State, more: seq<Action>) {
    forall k :: 0 <= k <= |more| ==> !Safe(RunFrom(cfg, s, more[..k]))
  }

  lemma {:induction false} DriftGoesOn(cfg: Config, start: State, more: seq<Action>)
    requires ValidConfig(cfg) && DriftsSince(cfg, start, start) && StaysUnsafe(cfg, start, more)
    ensures DriftsSince(cfg, start, RunFrom(cfg, start, more))
  {
    if more != [] {
      var before := more[..|more| - 1];
      assert forall k :: 0 <= k <= |before| ==> before[..k] == more[..k];
      DriftGoesOn(cfg, start, before);
      assert more[..|more|] == more;
      DriftStep(cfg, start, RunFrom(cfg, start, before), more[|more| - 1]);
    }
  }

  /** The longest a drift can last: until one loop period and the lateness of a wake-up after the later of its beginning
      and the end of the hold timeout. */
  predicate WithinDrift(cfg: Config, start: State, later: State) {
    && start.blockedAt.Some? && later.target == start.target
    && later.now <= Max(start.now, start.blockedAt.value + cfg.holdTimeout) + LOOP_SECONDS + cfg.lateness
  }

  lemma DriftIsBounded(cfg: Config, start: State, later: State)
    requires DriftsSince(cfg, start, later)
    ensures WithinDrift(cfg, start, later)
  {
  }

  lemma FirstUnsafeStateDrifts(cfg: Config, s: State, a: Action)
    requires ValidConfig(cfg) && Inv(cfg, s) && Safe(s) && !Safe(Step(cfg, s, a))
    ensures DriftsSince(cfg, Step(cfg, s, a), Step(cfg, s, a))
  {
    StepKeeps(cfg, s, a);
    FirstUnsafeStep(cfg, s, a);
  }

  /** From the step that told a blocked robot to move, that one command stands no longer than a drift can last. */
  lemma UnsafeTargetIsBounded(cfg: Config, actions: seq<Action>, a: Action, more: seq<Action>)
    requires ValidConfig(cfg) && Safe(Run(cfg, actions))
    requires StaysUnsafe(cfg, Step(cfg, Run(cfg, actions), a), more)
    ensures var start := Step(cfg, Run(cfg, actions), a);
            WithinDrift(cfg, start, RunFrom(cfg, start, more))
  {
    var start := Step(cfg, Run(cfg, actions), a);
    assert RunFrom(cfg, start, more[..0]) == start;
    RunKeeps(cfg, actions);
    FirstUnsafeStateDrifts(cfg, Run(cfg, actions), a);
    DriftGoesOn(cfg, start, more);
    DriftIsBounded(cfg, start, RunFrom(cfg, start, more));
  }
}
