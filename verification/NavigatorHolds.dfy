/** When a hold is left: told from the actions of a run. */
module NavigatorHolds {
  import opened Common
  import opened Kinematics
  import opened NavigatorModel
  import opened NavigatorTrace
  import opened NavigatorSafety
  import opened NavigatorCancel

  /** The robot waits in the hold of this waypoint. */
  predicate AtHold(s: State, i: nat) {
    s.navigating && ((s.pc.HoldWait? && s.pc.i == i) || (s.pc.BlockedSleep? && s.pc.inHold && s.pc.i == i))
  }

  /** What may let it go: a confirmation for this robot, or a cancel. */
  predicate LetsGo(a: Action) {
    a == HumanConfirmed(true) || a == CancelNavigation
  }

  /** Nobody has let it go yet. */
  predicate Held(s: State, i: nat) {
    AtHold(s, i) && !s.holdSet && !s.cancelled
  }

  lemma {:induction false} DriveEntersHeld(cfg: Config, s: State, i: nat, cached: Option<Reading>, h: nat)
    requires i <= |s.route| && CacheFor(cached, s.route) && AtHold(Drive(cfg, s, i, cached), h)
    ensures Held(Drive(cfg, s, i, cached), h)
    decreases |s.route| - i, 2
  {
    if i < |s.route| && !s.cancelled && !s.blocked && cached.Some? {
      assert Drive(cfg, s, i, cached) == Observe(cfg, s, i, cached) == UseReading(cfg, s, i, cached.value, cached);
      ReadingEntersHeld(cfg, s, i, cached.value, cached, h);
    }
  }

  lemma {:induction false} ReadingEntersHeld(cfg: Config, s: State, i: nat, r: Reading, cached: Option<Reading>,
                                             h: nat)
    requires i < |s.route| && ReadingFor(r, s.route) && CacheFor(cached, s.route)
    requires AtHold(UseReading(cfg, s, i, r, cached), h)
    ensures Held(UseReading(cfg, s, i, r, cached), h)
    decreases |s.route| - i, 0
  {
    if r.connectionOk && r.distances[i] <= cfg.tolerance && !s.route[i].hold {
      DriveEntersHeld(cfg, Arrive(s, i), i + 1, cached, h);
    }
  }

  /** A hold is entered with nobody having let go. */
  lemma HoldIsEnteredHeld(cfg: Config, s: State, a: Action, i: nat)
    requires Inv(cfg, s) && !AtHold(s, i) && AtHold(Step(cfg, s, a), i)
    ensures Held(Step(cfg, s, a), i)
  {
    if Enabled(cfg, s, a) {
      match a
      case Start(route, cached) => if !s.navigating { DriveEntersHeld(cfg, Begun(s, route), 0, cached, i); }
      case WakeDrive(cached) => DriveEntersHeld(cfg, s, s.pc.i, cached, i);
      case WakeBlocked(cached) =>
        if !s.blocked && !s.pc.inHold && cached.Some? {
          ReadingEntersHeld(cfg, s, s.pc.i, cached.value, cached, i);
        }
      case HoldReleased(cached) => if !s.cancelled { DriveEntersHeld(cfg, s, s.pc.i + 1, cached, i); }
      case HoldTimedOut(cached) => if s.holdSet { DriveEntersHeld(cfg, s, s.pc.i + 1, cached, i); }
      case PollReturned(r, cached) => ReadingEntersHeld(cfg, s, s.pc.i, r, cached, i);
      case _ =>
    }
  }

  /** Anything but a confirmation for this robot or a cancel leaves it held, unless the obstacle times out. */
  lemma HeldStays(cfg: Config, s: State, a: Action, i: nat)
    requires Inv(cfg, s) && Held(s, i) && !LetsGo(a)
    ensures Held(Step(cfg, s, a), i) || EndsWith(Step(cfg, s, a), Blocked)
  {
  }

  /** From the arrival at a hold up to here, nobody having let go. */
  lemma {:induction false} HeldUntil(cfg: Config, actions: seq<Action>, j: nat, i: nat)
    requires ValidConfig(cfg) && j < |actions|
    requires !AtHold(Run(cfg, actions[..j]), i) && AtHold(Run(cfg, actions[..j + 1]), i)
    requires forall m :: j < m < |actions| ==> AtHold(Run(cfg, actions[..m]), i) && !LetsGo(actions[m])
    ensures Held(Run(cfg, actions), i) || EndsWith(Run(cfg, actions), Blocked)
  {
    var before, a := actions[..|actions| - 1], actions[|actions| - 1];
    RunKeeps(cfg, before);
    if |actions| == j + 1 {
      assert actions[..j + 1] == actions;
      HoldIsEnteredHeld(cfg, Run(cfg, before), a, i);
    } else {
      assert forall m :: 0 <= m < |actions| ==> before[..m] == actions[..m];
      HeldUntil(cfg, before, j, i);
      assert AtHold(Run(cfg, actions[..|before|]), i);
      HeldStays(cfg, Run(cfg, before), a, i);
    }
  }

  /** Over every run: a robot that came to a hold and is no longer there, other than by the obstacle timeout, was let
      go by an action after its arrival, a confirmation for this very robot or a cancel. */
  lemma HoldIsLeftOnlyIfLetGo(cfg: Config, actions: seq<Action>, j: nat, i: nat)
    requires ValidConfig(cfg) && j < |actions|
    requires !AtHold(Run(cfg, actions[..j]), i) && AtHold(Run(cfg, actions[..j + 1]), i)
    requires forall m :: j < m < |actions| ==> AtHold(Run(cfg, actions[..m]), i)
    requires !AtHold(Run(cfg, actions), i) && !EndsWith(Run(cfg, actions), Blocked)
    ensures exists m :: j < m < |actions| && (actions[m] == HumanConfirmed(true) || actions[m] == CancelNavigation)
  {
    if forall m :: j < m < |actions| ==> !LetsGo(actions[m]) {
      HeldUntil(cfg, actions, j, i);
    }
  }

  /** The other way round: once confirmed, a hold that is neither cancelled nor blocked goes on when the wait returns,
      released or timed out: at the last waypoint the navigation succeeds, elsewhere the robot heads for the next. */
  lemma ConfirmedHoldGoesOn(cfg: Config, s: State, wait: Action)
    requires Inv(cfg, s) && s.navigating && s.pc.HoldWait? && !s.cancelled && !s.blocked
    requires wait.HoldReleased? || (wait.HoldTimedOut? && s.now >= s.pc.wakeAt)
    requires CacheFor(wait.cached, s.route)
    ensures var i, confirmed := s.pc.i, Step(cfg, s, HumanConfirmed(true));
            var next := Step(cfg, confirmed, wait);
            && AtHold(confirmed, i) && Enabled(cfg, confirmed, wait)
            && (i + 1 == |s.route| ==> EndsWith(next, Success))
            && (i + 1 < |s.route| && wait.cached.None? ==> next.navigating && next.pc == Polling(i + 1))
            && (i + 1 < |s.route| && wait.cached.Some? && wait.cached.value.connectionOk
                && wait.cached.value.distances[i + 1] > cfg.tolerance ==>
                  next.navigating && next.pc.DriveSleep? && next.pc.i == i + 1
                  && next.trace.Then? && next.trace.last.Commanded? && next.trace.last.i == i + 1)
  {
    DriveOnward(cfg, Step(cfg, s, HumanConfirmed(true)), s.pc.i + 1, wait.cached);
  }

  lemma DriveOnward(cfg: Config, s: State, i: nat, cached: Option<Reading>)
    requires s.navigating && !s.cancelled && !s.blocked && i <= |s.route| && CacheFor(cached, s.route)
    ensures var next := Drive(cfg, s, i, cached);
            && (i == |s.route| ==> EndsWith(next, Success))
            && (i < |s.route| && cached.None? ==> next == s.(pc := Polling(i)))
            && (i < |s.route| && cached.Some? && cached.value.connectionOk && cached.value.distances[i] > cfg.tolerance
                ==> next == SetTarget(cfg, s, i, cached.value))
  {
    if i < |s.route| {
      assert Drive(cfg, s, i, cached) == Observe(cfg, s, i, cached);
      ObservesOnward(cfg, s, i, cached);
    }
  }

  lemma ObservesOnward(cfg: Config, s: State, i: nat, cached: Option<Reading>)
    requires i < |s.route| && CacheFor(cached, s.route)
    ensures var next := Observe(cfg, s, i, cached);
            && (cached.None? ==> next == s.(pc := Polling(i)))
            && (cached.Some? && cached.value.connectionOk && cached.value.distances[i] > cfg.tolerance ==>
                  next == SetTarget(cfg, s, i, cached.value))
  {
  }

  /** What concerns another robot leaves everything as it was. */
  lemma OtherRobotsAreIgnored(cfg: Config, s: State, manual: bool)
    ensures Step(cfg, s, HumanConfirmed(false)) == s
    ensures Step(cfg, s, ObstacleDetected(false)) == s
    ensures Step(cfg, s, ObstacleCleared(false, manual)) == s
  {
  }
}
