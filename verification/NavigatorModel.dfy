/** The navigator as a state machine: the route coroutine cut at its suspension points, the bus handlers, the
    stable-clear timer and cancel_navigation, all over one clock. Every run leaves a trace. */
module NavigatorModel {
  import opened Common
  import opened Kinematics

  const LOOP_SECONDS: real := 0.05

  datatype Waypoint = Waypoint(hold: bool, velocity: real)

  /** lateness bounds how long after its deadline a sleeping route coroutine is resumed. */
  datatype Config = Config(
    holdTimeout: real, stableClear: real, minHold: real, resumeRamp: real, repeatCount: int,
    tolerance: real, limits: Limits, lateness: real)

  predicate ValidConfig(cfg: Config) {
    cfg.holdTimeout > 0.0 && cfg.tolerance > 0.0 && cfg.limits.maxYawRate > 0.0 && cfg.lateness >= 0.0
  }

  /** Telemetry, with the distance and the bearing to every waypoint of the route. */
  datatype Reading = Reading(connectionOk: bool, distances: seq<real>, bearings: seq<real>, yaw: real)

  predicate ReadingFor(r: Reading, route: seq<Waypoint>) {
    |r.distances| == |r.bearings| == |route| && forall d :: d in r.distances ==> d >= 0.0
  }

  predicate ValidRoute(route: seq<Waypoint>) {
    forall w :: w in route ==> w.velocity > 0.0
  }

  /** Where the route coroutine is suspended; i is the waypoint being driven to or held at. */
  datatype Pc =
    | Idle
    | Polling(i: nat)
    | DriveSleep(i: nat, wakeAt: real)
    | BlockedSleep(i: nat, inHold: bool, wakeAt: real)
    | HoldWait(i: nat, wakeAt: real)

  datatype Outcome = Success | Cancelled | Blocked | Failed

  datatype Reason = Manual | Spurious | StableClear

  datatype Entry =
    | Detected(at: real, opens: bool)
    | ClearArmed(at: real)
    | Resumed(reason: Reason, at: real)
    | Released
    | CancelRequested
    | Arrived(i: nat)
    | Commanded(i: nat, distance: real, command: Velocity)
    | Ended(outcome: Outcome)

  /** What happened in a run, latest entry outermost. */
  datatype Trace = Begin | Then(before: Trace, last: Entry)

  datatype State = State(
    now: real, navigating: bool, route: seq<Waypoint>, completed: nat, cancelled: bool,
    blocked: bool, blockedAt: Option<real>, detectedAt: Option<real>, count: int, manualNeeded: bool,
    timer: Option<real>, rampAt: Option<real>, holdSet: bool, target: Velocity, pc: Pc, trace: Trace)

  const INITIAL := State(0.0, false, [], 0, false, false, None, None, 0, false, None, None, false, STILL, Idle, Begin)

  function Log(s: State, e: Entry): State {
    s.(trace := Then(s.trace, e))
  }

  /** The finally clause. */
  function Finish(s: State, outcome: Outcome): State {
    Log(s, Ended(outcome)).(
      timer := None, target := STILL, navigating := false, blocked := false, blockedAt := None, pc := Idle)
  }

  /** One turn of _wait_while_blocked while the robot is blocked. */
  function CheckBlocked(cfg: Config, s: State, i: nat, inHold: bool): State {
    if s.cancelled then Finish(s, Cancelled)
    else if s.blockedAt.Some? && s.now - s.blockedAt.value >= cfg.holdTimeout then Finish(s, Blocked)
    else s.(pc := BlockedSleep(i, inHold, s.now + LOOP_SECONDS))
  }

  /** One turn of the hold loop, the hold event not being set. */
  function CheckHold(cfg: Config, s: State, i: nat): State {
    if s.cancelled then Finish(s, Cancelled)
    else if s.blocked then CheckBlocked(cfg, s, i, true)
    else s.(pc := HoldWait(i, s.now + LOOP_SECONDS))
  }

  /** The arrival at a waypoint, up to the hold loop. */
  function Arrive(s: State, i: nat): State
    requires i < |s.route|
  {
    var arrived := Log(s, Arrived(i)).(target := STILL, completed := s.completed + 1);
    if s.route[i].hold then arrived.(holdSet := false) else arrived
  }

  function SetTarget(cfg: Config, s: State, i: nat, r: Reading): State
    requires i < |s.route| && ReadingFor(r, s.route)
  {
    var (ramp, rampAt) := RampFactor(s.rampAt, cfg.resumeRamp, s.now);
    var v := Command(cfg.limits, s.route[i].velocity, r.distances[i], r.bearings[i], r.yaw, ramp);
    Log(s, Commanded(i, r.distances[i], v)).(rampAt := rampAt, target := v, pc := DriveSleep(i, s.now + LOOP_SECONDS))
  }

  predicate CacheFor(cached: Option<Reading>, route: seq<Waypoint>) {
    cached.Some? ==> ReadingFor(cached.value, route)
  }

  /** The drive loop from its top for waypoint i, up to the next suspension; waypoints already reached are
      passed in the same segment. */
  function Drive(cfg: Config, s: State, i: nat, cached: Option<Reading>): State
    requires i <= |s.route| && CacheFor(cached, s.route)
    decreases |s.route| - i, 2
  {
    if i == |s.route| then Finish(s, Success)
    else if s.cancelled then Finish(s, Cancelled)
    else if s.blocked then CheckBlocked(cfg, s, i, false)
    else Observe(cfg, s, i, cached)
  }

  /** Reading the state: without a cached one the coroutine suspends in a poll. */
  function Observe(cfg: Config, s: State, i: nat, cached: Option<Reading>): State
    requires i < |s.route| && CacheFor(cached, s.route)
    decreases |s.route| - i, 1
  {
    if cached.None? then s.(pc := Polling(i)) else UseReading(cfg, s, i, cached.value, cached)
  }

  function UseReading(cfg: Config, s: State, i: nat, r: Reading, cached: Option<Reading>): State
    requires i < |s.route| && ReadingFor(r, s.route) && CacheFor(cached, s.route)
    decreases |s.route| - i, 0
  {
    if !r.connectionOk then Finish(s, Failed)
    else if r.distances[i] > cfg.tolerance then SetTarget(cfg, s, i, r)
    else if s.route[i].hold then CheckHold(cfg, Arrive(s, i), i)
    else Drive(cfg, Arrive(s, i), i + 1, cached)
  }

  datatype Action =
    | Tick(seconds: real)
    | Start(route: seq<Waypoint>, cached: Option<Reading>)
    | WakeDrive(cached: Option<Reading>)
    | WakeBlocked(cached: Option<Reading>)
    | HoldReleased(cached: Option<Reading>)
    | HoldTimedOut(cached: Option<Reading>)
    | PollReturned(reading: Reading, cached: Option<Reading>)
    | PollRaised
    | ObstacleDetected(mine: bool)
    | ObstacleCleared(mine: bool, manual: bool)
    | HumanConfirmed(mine: bool)
    | CancelNavigation
    | TimerFired

  /** A deadline the clock may not pass by more than the lateness. */
  function Deadline(pc: Pc): Option<real> {
    match pc
    case Idle => None
    case Polling(_) => None
    case DriveSleep(_, w) => Some(w)
    case BlockedSleep(_, _, w) => Some(w)
    case HoldWait(_, w) => Some(w)
  }

  predicate Enabled(cfg: Config, s: State, a: Action) {
    match a
    case Tick(d) => d >= 0.0 && (Deadline(s.pc).Some? ==> s.now + d <= Deadline(s.pc).value + cfg.lateness)
    case Start(route, cached) => ValidRoute(route) && CacheFor(cached, route)
    case WakeDrive(cached) =>
      s.pc.DriveSleep? && s.now >= s.pc.wakeAt && s.pc.i < |s.route| && CacheFor(cached, s.route)
    case WakeBlocked(cached) =>
      s.pc.BlockedSleep? && s.now >= s.pc.wakeAt && s.pc.i < |s.route| && CacheFor(cached, s.route)
    case HoldReleased(cached) => s.pc.HoldWait? && s.holdSet && s.pc.i < |s.route| && CacheFor(cached, s.route)
    case HoldTimedOut(cached) =>
      s.pc.HoldWait? && s.now >= s.pc.wakeAt && s.pc.i < |s.route| && CacheFor(cached, s.route)
    case PollReturned(r, cached) =>
      s.pc.Polling? && s.pc.i < |s.route| && ReadingFor(r, s.route) && CacheFor(cached, s.route)
    case PollRaised => s.pc.Polling?
    case ObstacleDetected(_) => true
    case ObstacleCleared(_, _) => true
    case HumanConfirmed(_) => true
    case CancelNavigation => true
    case TimerFired => s.timer.Some? && s.now >= s.timer.value + cfg.stableClear
  }

  /** The state a navigation starts from; everything a previous run left is overwritten. */
  function Begun(s: State, route: seq<Waypoint>): State {
    s.(navigating := true, route := route, completed := 0, cancelled := false, blocked := false, blockedAt := None,
       detectedAt := None, count := 0, manualNeeded := false, timer := None, rampAt := None, holdSet := false,
       trace := Begin)
  }

  function Detect(cfg: Config, s: State): State {
    var quiet := Log(s, Detected(s.now, !s.blocked)).(timer := None, target := STILL);
    if s.blocked then quiet
    else quiet.(blocked := true, blockedAt := Some(s.now), detectedAt := Some(s.now), count := s.count + 1,
                manualNeeded := s.manualNeeded || s.count + 1 >= cfg.repeatCount)
  }

  function ApplyClear(cfg: Config, s: State, reason: Reason): State {
    Log(s, Resumed(reason, s.now)).(
      blocked := false, blockedAt := None, detectedAt := None,
      rampAt := if cfg.resumeRamp > 0.0 then Some(s.now) else s.rampAt)
  }

  function Clear(cfg: Config, s: State, manual: bool): State {
    if manual then ApplyClear(cfg, s.(timer := None, manualNeeded := false), Manual)
    else if s.manualNeeded then s
    else if s.detectedAt.Some? && s.now - s.detectedAt.value < cfg.minHold then
      var count := if s.count - 1 > 0 then s.count - 1 else 0;
      ApplyClear(cfg, s.(count := count, timer := None, manualNeeded := s.manualNeeded && count >= cfg.repeatCount),
                 Spurious)
    else Log(s, ClearArmed(s.now)).(timer := Some(s.now))
  }

  function Effect(cfg: Config, s: State, a: Action): State
    requires Enabled(cfg, s, a)
  {
    match a
    case Tick(d) => s.(now := s.now + d)
    case Start(route, cached) => if s.navigating then s else Drive(cfg, Begun(s, route), 0, cached)
    case WakeDrive(cached) => Drive(cfg, s, s.pc.i, cached)
    case WakeBlocked(cached) =>
      if s.blocked then CheckBlocked(cfg, s, s.pc.i, s.pc.inHold)
      else if s.pc.inHold then s.(pc := HoldWait(s.pc.i, s.now + LOOP_SECONDS))
      else Observe(cfg, s, s.pc.i, cached)
    case HoldReleased(cached) =>
      if s.cancelled then Finish(s, Cancelled) else Drive(cfg, s, s.pc.i + 1, cached)
    case HoldTimedOut(cached) =>
      if s.holdSet then Drive(cfg, s, s.pc.i + 1, cached) else CheckHold(cfg, s, s.pc.i)
    case PollReturned(r, cached) => UseReading(cfg, s, s.pc.i, r, cached)
    case PollRaised => Finish(s, Failed)
    case ObstacleDetected(mine) => if s.navigating && mine then Detect(cfg, s) else s
    case ObstacleCleared(mine, manual) => if s.navigating && s.blocked && mine then Clear(cfg, s, manual) else s
    case HumanConfirmed(mine) => if s.navigating && mine then Log(s, Released).(holdSet := true) else s
    case CancelNavigation =>
      var cancelled := s.(cancelled := true, holdSet := true, target := STILL);
      if s.navigating then Log(cancelled, CancelRequested) else cancelled
    case TimerFired =>
      if s.navigating && s.blocked then ApplyClear(cfg, s.(timer := None), StableClear) else s.(timer := None)
  }

  function Step(cfg: Config, s: State, a: Action): State {
    if Enabled(cfg, s, a) then Effect(cfg, s, a) else s
  }

  function Run(cfg: Config, actions: seq<Action>): State {
    if actions == [] then INITIAL else Step(cfg, Run(cfg, actions[..|actions| - 1]), actions[|actions| - 1])
  }

  /** A run from a given state. */
  function RunFrom(cfg: Config, s: State, more: seq<Action>): State {
    if more == [] then s else Step(cfg, RunFrom(cfg, s, more[..|more| - 1]), more[|more| - 1])
  }
}
