/** What single steps of the navigator come to, told from what is known before them. */
module NavigatorSteps {
  import opened Common
  import opened Kinematics
  import opened NavigatorModel
  import opened NavigatorTrace
  import opened NavigatorSafety
  import opened NavigatorCancel
  import opened NavigatorHolds

  // ---------- how a navigation ends ----------

  /** The reading that an action brings to the coroutine. */
  function ReadingOf(a: Action): Option<Reading> {
    match a
    case Start(_, cached) => cached
    case WakeDrive(cached) => cached
    case WakeBlocked(cached) => cached
    case HoldReleased(cached) => cached
    case HoldTimedOut(cached) => cached
    case PollReturned(r, _) => Some(r)
    case _ => None
  }

  /** A reading the coroutine may use in the step, the poll's own or a cached one, says that telemetry is lost. */
  predicate SaysLost(a: Action) {
    || (a.PollReturned? && (!a.reading.connectionOk || (a.cached.Some? && !a.cached.value.connectionOk)))
    || (!a.PollReturned? && ReadingOf(a).Some? && !ReadingOf(a).value.connectionOk)
  }

  /** Blocked since longer than the timeout allows. */
  predicate TimedOut(cfg: Config, s: State) {
    s.blocked && s.blockedAt.Some? && s.now - s.blockedAt.value >= cfg.holdTimeout
  }

  /** Every end has its reason: lost telemetry, a block that lasted too long, a cancel, or all waypoints reached. */
  predicate EndsForItsReason(cfg: Config, s: State, a: Action, later: State) {
    && (EndsWith(later, Failed) ==> a.PollRaised? || SaysLost(a))
    && (EndsWith(later, Blocked) ==> TimedOut(cfg, s) && !s.cancelled)
    && (EndsWith(later, Cancelled) ==> s.cancelled)
    && (EndsWith(later, Success) ==> later.completed == |later.route|)
  }

  predicate LostIn(r: Option<Reading>) {
    r.Some? && !r.value.connectionOk
  }

  /** How the drive loop may end the navigation. */
  predicate DriveEnds(cfg: Config, s: State, lost: bool, later: State) {
    && (EndsWith(later, Failed) ==> lost)
    && (EndsWith(later, Blocked) ==> TimedOut(cfg, s) && !s.cancelled)
    && (EndsWith(later, Cancelled) ==> s.cancelled)
  }

  lemma {:induction false} DriveEndsForItsReason(cfg: Config, s: State, i: nat, cached: Option<Reading>)
    requires s.navigating && i <= |s.route| && CacheFor(cached, s.route)
    ensures DriveEnds(cfg, s, LostIn(cached), Drive(cfg, s, i, cached))
    decreases |s.route| - i, 2
  {
    if i < |s.route| && !s.cancelled && !s.blocked {
      if cached.None? {
        assert Drive(cfg, s, i, cached) == Observe(cfg, s, i, cached) == s.(pc := Polling(i));
      } else {
        assert Drive(cfg, s, i, cached) == UseReading(cfg, s, i, cached.value, cached);
        ReadingEndsForItsReason(cfg, s, i, cached.value, cached);
      }
    }
  }

  lemma {:induction false} ReadingEndsForItsReason(cfg: Config, s: State, i: nat, r: Reading, cached: Option<Reading>)
    requires s.navigating && i < |s.route| && ReadingFor(r, s.route) && CacheFor(cached, s.route)
    ensures DriveEnds(cfg, s, !r.connectionOk || LostIn(cached), UseReading(cfg, s, i, r, cached))
    decreases |s.route| - i, 0
  {
    if r.connectionOk && r.distances[i] <= cfg.tolerance && !s.route[i].hold {
      DriveEndsForItsReason(cfg, Arrive(s, i), i + 1, cached);
    }
  }

  lemma SuccessIsComplete(cfg: Config, s: State)
    requires Inv(cfg, s)
    ensures EndsWith(s, Success) ==> s.completed == |s.route|
  {
  }

  lemma OwnStepEndsForItsReason(cfg: Config, s: State, a: Action)
    requires Inv(cfg, s) && s.navigating && Enabled(cfg, s, a) && IsOwn(a)
    ensures DriveEnds(cfg, s, a.PollRaised? || SaysLost(a), Step(cfg, s, a))
  {
    match a
    case WakeDrive(cached) => DriveEndsForItsReason(cfg, s, s.pc.i, cached);
    case WakeBlocked(cached) =>
      if !s.blocked && !s.pc.inHold && cached.Some? {
        ReadingEndsForItsReason(cfg, s, s.pc.i, cached.value, cached);
      }
    case HoldReleased(cached) => DriveEndsForItsReason(cfg, s, s.pc.i + 1, cached);
    case HoldTimedOut(cached) => DriveEndsForItsReason(cfg, s, s.pc.i + 1, cached);
    case PollReturned(r, cached) => ReadingEndsForItsReason(cfg, s, s.pc.i, r, cached);
    case _ =>
  }

  lemma StepEndsForItsReason(cfg: Config, s: State, a: Action)
    requires ValidConfig(cfg) && Inv(cfg, s) && s.navigating
    ensures EndsForItsReason(cfg, s, a, Step(cfg, s, a))
  {
    StepKeeps(cfg, s, a);
    SuccessIsComplete(cfg, Step(cfg, s, a));
    if Enabled(cfg, s, a) && IsOwn(a) {
      OwnStepEndsForItsReason(cfg, s, a);
    }
  }

  /** And every reason has its end, at the coroutine's next look: a cancel first, then the block, which makes it sleep
      again until it has lasted too long. */
  lemma NextLookDecides(cfg: Config, s: State, a: Action)
    requires Inv(cfg, s) && s.navigating && Enabled(cfg, s, a)
    requires a.WakeDrive? || (a.WakeBlocked? && s.blocked) || (a.HoldTimedOut? && !s.holdSet)
    requires s.cancelled || s.blocked
    ensures var later := Step(cfg, s, a);
            if s.cancelled then EndsWith(later, Cancelled)
            else if TimedOut(cfg, s) then EndsWith(later, Blocked)
            else later == s.(pc := BlockedSleep(s.pc.i, a.HoldTimedOut? || (s.pc.BlockedSleep? && s.pc.inHold),
                                                s.now + 0.05))
  {
  }

  /** A release after a cancel, a failed poll and a lost connection end the navigation at once. */
  lemma EndsAtOnce(cfg: Config, s: State, a: Action)
    requires Inv(cfg, s) && s.navigating && Enabled(cfg, s, a)
    ensures a.HoldReleased? && s.cancelled ==> EndsWith(Step(cfg, s, a), Cancelled)
    ensures a.PollRaised? ==> EndsWith(Step(cfg, s, a), Failed)
    ensures a.PollReturned? && !a.reading.connectionOk ==> EndsWith(Step(cfg, s, a), Failed)
  {
  }

  // ---------- sleeping ----------

  predicate SleepsOnePeriod(s: State) {
    Deadline(s.pc).Some? ==> Deadline(s.pc) == Some(s.now + 0.05)
  }

  lemma {:induction false} DriveSleepsOnePeriod(cfg: Config, s: State, i: nat, cached: Option<Reading>)
    requires i <= |s.route| && CacheFor(cached, s.route)
    ensures SleepsOnePeriod(Drive(cfg, s, i, cached)) && Drive(cfg, s, i, cached).now == s.now
    decreases |s.route| - i, 2
  {
    if i < |s.route| && !s.cancelled && !s.blocked && cached.Some? {
      assert Drive(cfg, s, i, cached) == UseReading(cfg, s, i, cached.value, cached);
      ReadingSleepsOnePeriod(cfg, s, i, cached.value, cached);
    }
  }

  lemma {:induction false} ReadingSleepsOnePeriod(cfg: Config, s: State, i: nat, r: Reading, cached: Option<Reading>)
    requires i < |s.route| && ReadingFor(r, s.route) && CacheFor(cached, s.route)
    ensures SleepsOnePeriod(UseReading(cfg, s, i, r, cached)) && UseReading(cfg, s, i, r, cached).now == s.now
    decreases |s.route| - i, 0
  {
    if r.connectionOk && r.distances[i] <= cfg.tolerance && !s.route[i].hold {
      DriveSleepsOnePeriod(cfg, Arrive(s, i), i + 1, cached);
    }
  }

  /** Whenever a step of the coroutine leaves it asleep, it is for a twentieth of a second. */
  lemma OwnStepSleepsOnePeriod(cfg: Config, s: State, a: Action)
    requires Inv(cfg, s) && Enabled(cfg, s, a) && (IsOwn(a) || (a.Start? && !s.navigating))
    ensures SleepsOnePeriod(Step(cfg, s, a))
  {
    match a
    case Start(route, cached) => DriveSleepsOnePeriod(cfg, Begun(s, route), 0, cached);
    case WakeDrive(cached) => DriveSleepsOnePeriod(cfg, s, s.pc.i, cached);
    case WakeBlocked(cached) =>
      if !s.blocked && !s.pc.inHold && cached.Some? {
        ReadingSleepsOnePeriod(cfg, s, s.pc.i, cached.value, cached);
      }
    case HoldReleased(cached) => DriveSleepsOnePeriod(cfg, s, s.pc.i + 1, cached);
    case HoldTimedOut(cached) => DriveSleepsOnePeriod(cfg, s, s.pc.i + 1, cached);
    case PollReturned(r, cached) => ReadingSleepsOnePeriod(cfg, s, s.pc.i, r, cached);
    case _ =>
  }

  // ---------- standing still ----------

  /** Asleep in a hold or waiting for a poll after an arrival. */
  predicate StoppedAtArrival(before: State, s: State) {
    s.completed > before.completed && s.navigating && !s.pc.DriveSleep? ==> s.target == STILL
  }

  lemma {:induction false} DriveStopsAtArrivals(cfg: Config, before: State, s: State, i: nat, cached: Option<Reading>)
    requires i <= |s.route| && CacheFor(cached, s.route) && (s.completed > before.completed ==> s.target == STILL)
    ensures StoppedAtArrival(before, Drive(cfg, s, i, cached))
    decreases |s.route| - i, 2
  {
    if i < |s.route| && !s.cancelled && !s.blocked && cached.Some? {
      assert Drive(cfg, s, i, cached) == UseReading(cfg, s, i, cached.value, cached);
      ReadingStopsAtArrivals(cfg, before, s, i, cached.value, cached);
    }
  }

  lemma {:induction false} ReadingStopsAtArrivals(cfg: Config, before: State, s: State, i: nat, r: Reading,
                                                  cached: Option<Reading>)
    requires i < |s.route| && ReadingFor(r, s.route) && CacheFor(cached, s.route)
    requires s.completed > before.completed ==> s.target == STILL
    ensures StoppedAtArrival(before, UseReading(cfg, s, i, r, cached))
    decreases |s.route| - i, 0
  {
    if r.connectionOk && r.distances[i] <= cfg.tolerance && !s.route[i].hold {
      DriveStopsAtArrivals(cfg, before, Arrive(s, i), i + 1, cached);
    }
  }

  /** A step that reaches a waypoint leaves the target still, unless it goes on to command the way to the next one. */
  lemma ArrivalStopsTheRobot(cfg: Config, s: State, a: Action)
    requires Inv(cfg, s) && s.navigating
    ensures StoppedAtArrival(s, Step(cfg, s, a))
  {
    if Enabled(cfg, s, a) {
      match a
      case WakeDrive(cached) => DriveStopsAtArrivals(cfg, s, s, s.pc.i, cached);
      case WakeBlocked(cached) =>
        if !s.blocked && !s.pc.inHold && cached.Some? {
          ReadingStopsAtArrivals(cfg, s, s, s.pc.i, cached.value, cached);
        }
      case HoldReleased(cached) => if !s.cancelled { DriveStopsAtArrivals(cfg, s, s, s.pc.i + 1, cached); }
      case HoldTimedOut(cached) => if s.holdSet { DriveStopsAtArrivals(cfg, s, s, s.pc.i + 1, cached); }
      case PollReturned(r, cached) => ReadingStopsAtArrivals(cfg, s, s, s.pc.i, r, cached);
      case _ =>
    }
  }

  // ---------- a fresh run ----------

  /** A new navigation owes nothing to those before it. */
  lemma FreshRunOwesNothing(cfg: Config, s: State, other: State, route: seq<Waypoint>, cached: Option<Reading>)
    requires Inv(cfg, s) && Inv(cfg, other) && !s.navigating && !other.navigating && s.now == other.now
    requires Enabled(cfg, s, Start(route, cached))
    ensures Step(cfg, s, Start(route, cached)) == Step(cfg, other, Start(route, cached))
  {
    assert Begun(s, route) == Begun(other, route);
  }

  // ---------- clearances ----------

  /** A clearance of this robot's block: by hand at once and whatever the count; by sensor never once a confirmation is
      needed, at once and uncounted within the minimum hold, and otherwise by starting the timer. */
  lemma ClearanceDecides(cfg: Config, s: State, manual: bool)
    requires Inv(cfg, s) && s.navigating && s.blocked
    ensures var later := Step(cfg, s, ObstacleCleared(true, manual));
            var young := s.now - s.detectedAt.value < cfg.minHold;
            && later.navigating && later.pc == s.pc && later.target == s.target
            && (later.blocked <==> !manual && (s.count >= cfg.repeatCount || !young))
            && (!later.blocked ==> later.timer == None && !later.manualNeeded
                                   && (cfg.resumeRamp > 0.0 ==> later.rampAt == Some(s.now)))
            && (!manual && s.count >= cfg.repeatCount ==> later == s)
            && (!manual && s.count < cfg.repeatCount && !young ==> later.timer == Some(s.now) && later.count == s.count)
            && (!manual && s.count < cfg.repeatCount && young ==> later.count == s.count - 1)
            && (manual ==> later.count == s.count)
  {
  }

  /** A running timer goes on until a detection, a further clearance or the end of the navigation. */
  lemma TimerGoesOn(cfg: Config, s: State, a: Action)
    requires Inv(cfg, s) && s.timer.Some? && a != ObstacleDetected(true) && !a.TimerFired?
    requires !a.ObstacleCleared? || !a.mine
    ensures Step(cfg, s, a).navigating ==> Step(cfg, s, a).timer == s.timer
  {
    if Enabled(cfg, s, a) {
      if IsOwn(a) {
        OwnStepKeepsTimer(cfg, s, a);
      }
    }
  }

  lemma OwnStepKeepsTimer(cfg: Config, s: State, a: Action)
    requires Inv(cfg, s) && s.timer.Some? && Enabled(cfg, s, a) && IsOwn(a)
    ensures Step(cfg, s, a).navigating ==> Step(cfg, s, a).timer == s.timer
  {
    match a
    case PollReturned(r, cached) => BlockedReadingKeepsTimer(cfg, s, s.pc.i, r, cached);
    case _ =>
  }

  lemma BlockedReadingKeepsTimer(cfg: Config, s: State, i: nat, r: Reading, cached: Option<Reading>)
    requires s.blocked && i < |s.route| && ReadingFor(r, s.route) && CacheFor(cached, s.route)
    ensures var later := UseReading(cfg, s, i, r, cached); later.navigating ==> later.timer == s.timer
  {
    if r.connectionOk && r.distances[i] <= cfg.tolerance && !s.route[i].hold {
      BlockedDriveKeepsTimer(cfg, Arrive(s, i), i + 1, cached);
    }
  }

  lemma BlockedDriveKeepsTimer(cfg: Config, s: State, i: nat, cached: Option<Reading>)
    requires s.blocked && i <= |s.route| && CacheFor(cached, s.route)
    ensures var later := Drive(cfg, s, i, cached); later.navigating ==> later.timer == s.timer
  {
  }

  /** It fires from the end of the stable-clear interval on, and then the robot is free. */
  lemma TimerFrees(cfg: Config, s: State)
    requires Inv(cfg, s) && s.timer.Some?
    ensures Enabled(cfg, s, TimerFired) <==> s.now >= s.timer.value + cfg.stableClear
    ensures s.now >= s.timer.value + cfg.stableClear ==>
              var later := Step(cfg, s, TimerFired);
              !later.blocked && later.timer == None && (cfg.resumeRamp > 0.0 ==> later.rampAt == Some(s.now))
  {
  }
}
