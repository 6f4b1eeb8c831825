/** What the robot is commanded: the controller's velocity for its waypoint, slowed for a while after a resume. */
module NavigatorRamps {
  import opened Common
  import opened Kinematics
  import opened NavigatorModel
  import opened NavigatorTrace
  import opened NavigatorSafety
  import opened NavigatorCancel

  /** When the robot last resumed in this navigation. */
  function LastResumed(t: Trace): Option<real> {
    if t.Begin? then None else if t.last.Resumed? then Some(t.last.at) else LastResumed(t.before)
  }

  /** The ramp runs since the last resume until its time is over. */
  predicate RampOk(cfg: Config, s: State) {
    && (cfg.resumeRamp <= 0.0 ==> s.rampAt == None)
    && (cfg.resumeRamp > 0.0 && s.rampAt.Some? ==> s.rampAt == LastResumed(s.trace))
    && (cfg.resumeRamp > 0.0 && s.rampAt.None? && LastResumed(s.trace).Some? ==>
          s.now >= LastResumed(s.trace).value + cfg.resumeRamp)
  }

  lemma {:induction false} DriveKeepsRamp(cfg: Config, s: State, i: nat, cached: Option<Reading>)
    requires RampOk(cfg, s) && i <= |s.route| && CacheFor(cached, s.route)
    ensures RampOk(cfg, Drive(cfg, s, i, cached))
    decreases |s.route| - i, 2
  {
    if i < |s.route| && !s.cancelled && !s.blocked && cached.Some? {
      assert Drive(cfg, s, i, cached) == UseReading(cfg, s, i, cached.value, cached);
      ReadingKeepsRamp(cfg, s, i, cached.value, cached);
    }
  }

  lemma {:induction false} ReadingKeepsRamp(cfg: Config, s: State, i: nat, r: Reading, cached: Option<Reading>)
    requires RampOk(cfg, s) && i < |s.route| && ReadingFor(r, s.route) && CacheFor(cached, s.route)
    ensures RampOk(cfg, UseReading(cfg, s, i, r, cached))
    decreases |s.route| - i, 0
  {
    if r.connectionOk {
      if r.distances[i] > cfg.tolerance {
        CommandKeepsRamp(cfg, s, i, r);
      } else {
        ArrivalKeepsRamp(cfg, s, i);
        if s.route[i].hold {
          HoldKeepsRamp(cfg, Arrive(s, i), i);
        } else {
          DriveKeepsRamp(cfg, Arrive(s, i), i + 1, cached);
        }
      }
    }
  }

  lemma HoldKeepsRamp(cfg: Config, s: State, i: nat)
    requires RampOk(cfg, s)
    ensures RampOk(cfg, CheckHold(cfg, s, i))
  {
  }

  lemma ArrivalKeepsRamp(cfg: Config, s: State, i: nat)
    requires RampOk(cfg, s) && i < |s.route|
    ensures RampOk(cfg, Arrive(s, i))
  {
  }

  lemma CommandKeepsRamp(cfg: Config, s: State, i: nat, r: Reading)
    requires RampOk(cfg, s) && i < |s.route| && ReadingFor(r, s.route)
    ensures RampOk(cfg, SetTarget(cfg, s, i, r))
  {
  }

  lemma OwnStepKeepsRamp(cfg: Config, s: State, a: Action)
    requires Inv(cfg, s) && s.navigating && RampOk(cfg, s) && Enabled(cfg, s, a) && IsOwn(a)
    ensures RampOk(cfg, Effect(cfg, s, a))
  {
    match a
    case WakeDrive(cached) => DriveKeepsRamp(cfg, s, s.pc.i, cached);
    case WakeBlocked(cached) =>
      if !s.blocked && !s.pc.inHold && cached.Some? {
        ReadingKeepsRamp(cfg, s, s.pc.i, cached.value, cached);
      }
    case HoldReleased(cached) => if !s.cancelled { DriveKeepsRamp(cfg, s, s.pc.i + 1, cached); }
    case HoldTimedOut(cached) => if s.holdSet { DriveKeepsRamp(cfg, s, s.pc.i + 1, cached); }
    case PollReturned(r, cached) => ReadingKeepsRamp(cfg, s, s.pc.i, r, cached);
    case _ =>
  }

  lemma StepKeepsRamp(cfg: Config, s: State, a: Action)
    requires Inv(cfg, s) && (s.navigating ==> RampOk(cfg, s)) && Step(cfg, s, a).navigating
    ensures RampOk(cfg, Step(cfg, s, a))
  {
    if Enabled(cfg, s, a) {
      if a.Start? {
        if !s.navigating {
          DriveKeepsRamp(cfg, Begun(s, a.route), 0, a.cached);
        }
      } else if IsOwn(a) {
        OwnStepKeepsRamp(cfg, s, a);
      } else {
        OtherStepKeepsRamp(cfg, s, a);
      }
    }
  }

  lemma OtherStepKeepsRamp(cfg: Config, s: State, a: Action)
    requires Inv(cfg, s) && s.navigating && RampOk(cfg, s) && Enabled(cfg, s, a) && !IsOwn(a) && !a.Start?
    ensures RampOk(cfg, Effect(cfg, s, a))
  {
    if a.ObstacleCleared? {
      ClearanceKeepsRamp(cfg, s, a.manual);
    }
  }

  lemma ClearanceKeepsRamp(cfg: Config, s: State, manual: bool)
    requires RampOk(cfg, s)
    ensures RampOk(cfg, Clear(cfg, s, manual))
  {
  }

  lemma {:induction false} RunKeepsRamp(cfg: Config, actions: seq<Action>)
    requires ValidConfig(cfg) && Run(cfg, actions).navigating
    ensures RampOk(cfg, Run(cfg, actions))
  {
    if actions != [] {
      var before := actions[..|actions| - 1];
      RunKeeps(cfg, before);
      if Run(cfg, before).navigating {
        RunKeepsRamp(cfg, before);
      }
      StepKeepsRamp(cfg, Run(cfg, before), actions[|actions| - 1]);
    }
  }

  // ---------- the command ----------

  /** The share of the speed allowed now. */
  function Share(cfg: Config, resumed: Option<real>, now: real): real {
    RampFactor(resumed, cfg.resumeRamp, now).0
  }

  /** On its way to a waypoint, commanded by what a reading says of that waypoint. */
  predicate CommandedBy(cfg: Config, s: State, share: real, r: Reading) {
    && s.navigating && s.pc.DriveSleep? && s.pc.i < |s.route| && ReadingFor(r, s.route) && r.connectionOk
    && r.distances[s.pc.i] > cfg.tolerance
    && s.target == Command(cfg.limits, s.route[s.pc.i].velocity, r.distances[s.pc.i], r.bearings[s.pc.i], r.yaw, share)
    && s.trace.Then? && s.trace.last == Commanded(s.pc.i, r.distances[s.pc.i], s.target)
  }

  lemma {:induction false} DriveCommands(cfg: Config, s: State, i: nat, cached: Option<Reading>)
    requires s.navigating && i <= |s.route| && CacheFor(cached, s.route)
    ensures Drive(cfg, s, i, cached).pc.DriveSleep? ==>
              cached.Some? && CommandedBy(cfg, Drive(cfg, s, i, cached), Share(cfg, s.rampAt, s.now), cached.value)
    decreases |s.route| - i, 2
  {
    if i < |s.route| && !s.cancelled && !s.blocked {
      if cached.None? {
        assert Drive(cfg, s, i, cached) == Observe(cfg, s, i, cached) == s.(pc := Polling(i));
      } else {
        assert Drive(cfg, s, i, cached) == UseReading(cfg, s, i, cached.value, cached);
        ReadingCommands(cfg, s, i, cached.value, cached);
      }
    }
  }

  lemma {:induction false} ReadingCommands(cfg: Config, s: State, i: nat, r: Reading, cached: Option<Reading>)
    requires s.navigating && i < |s.route| && ReadingFor(r, s.route) && CacheFor(cached, s.route)
    ensures var later := UseReading(cfg, s, i, r, cached);
            later.pc.DriveSleep? ==>
              CommandedBy(cfg, later, Share(cfg, s.rampAt, s.now), r)
              || (cached.Some? && CommandedBy(cfg, later, Share(cfg, s.rampAt, s.now), cached.value))
    decreases |s.route| - i, 0
  {
    if r.connectionOk && r.distances[i] <= cfg.tolerance && !s.route[i].hold {
      DriveCommands(cfg, Arrive(s, i), i + 1, cached);
    }
  }

  /** The readings that an action brings. */
  predicate Brings(a: Action, r: Reading) {
    match a
    case Start(_, cached) => cached == Some(r)
    case WakeDrive(cached) => cached == Some(r)
    case WakeBlocked(cached) => cached == Some(r)
    case HoldReleased(cached) => cached == Some(r)
    case HoldTimedOut(cached) => cached == Some(r)
    case PollReturned(reading, cached) => reading == r || cached == Some(r)
    case _ => false
  }

  lemma StepCommands(cfg: Config, s: State, a: Action)
    requires Inv(cfg, s) && Enabled(cfg, s, a) && (IsOwn(a) || (a.Start? && !s.navigating))
    requires Step(cfg, s, a).pc.DriveSleep?
    ensures var rampAt := if a.Start? then None else s.rampAt;
            exists r :: Brings(a, r) && CommandedBy(cfg, Step(cfg, s, a), Share(cfg, rampAt, s.now), r)
  {
    match a
    case Start(route, cached) =>
      DriveCommands(cfg, Begun(s, route), 0, cached);
      assert Brings(a, cached.value);
    case WakeDrive(cached) =>
      DriveCommands(cfg, s, s.pc.i, cached);
      assert Brings(a, cached.value);
    case WakeBlocked(cached) =>
      ReadingCommands(cfg, s, s.pc.i, cached.value, cached);
      assert Brings(a, cached.value);
    case HoldReleased(cached) =>
      DriveCommands(cfg, s, s.pc.i + 1, cached);
      assert Brings(a, cached.value);
    case HoldTimedOut(cached) =>
      DriveCommands(cfg, s, s.pc.i + 1, cached);
      assert Brings(a, cached.value);
    case PollReturned(r, cached) =>
      ReadingCommands(cfg, s, s.pc.i, r, cached);
      assert Brings(a, r) && (cached.Some? ==> Brings(a, cached.value));
  }

  lemma SameShare(cfg: Config, s: State)
    requires RampOk(cfg, s)
    ensures Share(cfg, s.rampAt, s.now) == Share(cfg, LastResumed(s.trace), s.now)
  {
  }

  /** In every run, a step that leaves the robot driving has commanded it by the controller, for the waypoint it drives
      to, from a reading the step brought that puts the waypoint out of reach, with the share of the speed that the time
      since the last resume of this navigation allows. */
  lemma CommandsFollowTheController(cfg: Config, actions: seq<Action>, a: Action)
    requires ValidConfig(cfg) && Enabled(cfg, Run(cfg, actions), a)
    requires IsOwn(a) || (a.Start? && !Run(cfg, actions).navigating)
    requires Step(cfg, Run(cfg, actions), a).pc.DriveSleep?
    ensures var s := Run(cfg, actions);
            var resumed := if a.Start? then None else LastResumed(s.trace);
            exists r :: Brings(a, r) && CommandedBy(cfg, Step(cfg, s, a), Share(cfg, resumed, s.now), r)
  {
    var s := Run(cfg, actions);
    RunKeeps(cfg, actions);
    StepCommands(cfg, s, a);
    if !a.Start? {
      RunKeepsRamp(cfg, actions);
      SameShare(cfg, s);
    }
  }

  /** A command given when the ramp's time is over ends the ramp. */
  lemma RampIsOver(cfg: Config, s: State, a: Action)
    requires Inv(cfg, s) && Enabled(cfg, s, a) && a.PollReturned? && cfg.resumeRamp > 0.0
    requires a.reading.connectionOk && a.reading.distances[s.pc.i] > cfg.tolerance
    ensures var later := Step(cfg, s, a);
            later.rampAt == if s.rampAt.Some? && s.now < s.rampAt.value + cfg.resumeRamp then s.rampAt else None
  {
  }
}
