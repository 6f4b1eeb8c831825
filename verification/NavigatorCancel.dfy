/** What a cancel does to a navigation: where it is overlooked, and how the navigation may still end. */
module NavigatorCancel {
  import opened Common
  import opened Kinematics
  import opened NavigatorModel
  import opened NavigatorTrace
  import opened NavigatorSafety
  import opened NavigatorMotion

  /** The navigation goes on throughout. */
  ghost predicate GoesOn(cfg: Config, s: State, more: seq<Action>) {
    forall k :: 0 <= k <= |more| ==> RunFrom(cfg, s, more[..k]).navigating
  }

  /** Points from which the coroutine goes on to use a reading without looking for a cancel: a poll, and the sleep of a
      blocked robot on the way to a waypoint, should the robot be free when it ends. */
  predicate OverlooksCancel(pc: Pc) {
    pc.Polling? || (pc.BlockedSleep? && !pc.inHold)
  }

  /** Cancelled, standing still and bound to notice. */
  predicate Stopped(s: State) {
    s.cancelled && s.target == STILL && !OverlooksCancel(s.pc)
  }

  /** The coroutine's own steps. */
  predicate IsOwn(a: Action) {
    a.WakeDrive? || a.WakeBlocked? || a.HoldReleased? || a.HoldTimedOut? || a.PollReturned? || a.PollRaised?
  }

  lemma OwnStepStaysStopped(cfg: Config, s: State, a: Action)
    requires Inv(cfg, s) && s.navigating && Stopped(s) && Enabled(cfg, s, a) && IsOwn(a)
    ensures Effect(cfg, s, a).navigating ==> Stopped(Effect(cfg, s, a))
  {
  }

  lemma StepStaysStopped(cfg: Config, s: State, a: Action)
    requires Inv(cfg, s) && s.navigating && Stopped(s)
    ensures Step(cfg, s, a).navigating ==> Stopped(Step(cfg, s, a))
  {
    if Enabled(cfg, s, a) && IsOwn(a) {
      OwnStepStaysStopped(cfg, s, a);
    }
  }

  lemma {:induction false} RunStaysStopped(cfg: Config, s: State, more: seq<Action>)
    requires ValidConfig(cfg) && Inv(cfg, s) && Stopped(s) && GoesOn(cfg, s, more)
    ensures Inv(cfg, RunFrom(cfg, s, more)) && Stopped(RunFrom(cfg, s, more))
  {
    if more != [] {
      var before := more[..|more| - 1];
      assert forall k :: 0 <= k <= |before| ==> before[..k] == more[..k];
      RunStaysStopped(cfg, s, before);
      assert RunFrom(cfg, s, more[..|before|]).navigating && more[..|more|] == more;
      StepKeeps(cfg, RunFrom(cfg, s, before), more[|more| - 1]);
      StepStaysStopped(cfg, RunFrom(cfg, s, before), more[|more| - 1]);
    }
  }

  /** A reading of a robot that is far from everything and looks the wrong way. */
  function FarReading(cfg: Config, route: seq<Waypoint>): (r: Reading)
    requires ValidConfig(cfg)
    ensures ReadingFor(r, route)
  {
    Reading(true, seq(|route|, _ => cfg.tolerance + 1.0), seq(|route|, _ => 1.0), 0.0)
  }

  lemma FarReadingCommandsMotion(cfg: Config, s: State, i: nat)
    requires ValidConfig(cfg) && ValidRoute(s.route) && i < |s.route| && s.navigating
    ensures var later := UseReading(cfg, s, i, FarReading(cfg, s.route), None);
            later.target != STILL && later.navigating
  {
    NormalizeAngleIsCongruent(1.0);
    FarReadingMoves(cfg, s, i, FarReading(cfg, s.route));
  }

  // ---------- continuations ----------

  /** A later moment of the same navigation. */
  ghost predicate GoesTo(cfg: Config, s: State, later: State) {
    exists more :: GoesOn(cfg, s, more) && RunFrom(cfg, s, more) == later
  }

  lemma GoesToItself(cfg: Config, s: State)
    requires s.navigating
    ensures GoesTo(cfg, s, s)
  {
    assert GoesOn(cfg, s, []) && RunFrom(cfg, s, []) == s;
  }

  lemma GoesFurther(cfg: Config, s: State, mid: State, a: Action)
    requires GoesTo(cfg, s, mid) && Step(cfg, mid, a).navigating
    ensures GoesTo(cfg, s, Step(cfg, mid, a))
  {
    var more :| GoesOn(cfg, s, more) && RunFrom(cfg, s, more) == mid;
    GoesOnOneMore(cfg, s, more, a);
  }

  lemma GoesOnOneMore(cfg: Config, s: State, more: seq<Action>, a: Action)
    requires GoesOn(cfg, s, more) && Step(cfg, RunFrom(cfg, s, more), a).navigating
    ensures RunFrom(cfg, s, more + [a]) == Step(cfg, RunFrom(cfg, s, more), a)
    ensures GoesOn(cfg, s, more + [a])
  {
    assert (more + [a])[..|more|] == more;
    forall k | 0 <= k <= |more + [a]| ensures RunFrom(cfg, s, (more + [a])[..k]).navigating {
      assert (more + [a])[..k] == if k <= |more| then more[..k] else more + [a];
    }
  }

  /** Some time after, with nothing else changed. */
  predicate MerelyLater(s: State, later: State) {
    later == s.(now := later.now) && later.now >= s.now
  }

  /** The clock reaches the coroutine's deadline. */
  lemma DeadlineComes(cfg: Config, s: State, mid: State) returns (due: State)
    requires ValidConfig(cfg) && GoesTo(cfg, s, mid) && mid.navigating && Deadline(mid.pc).Some?
    ensures GoesTo(cfg, s, due) && MerelyLater(mid, due) && due.now >= Deadline(mid.pc).value
  {
    var wait := Tick(Max(0.0, Deadline(mid.pc).value - mid.now));
    due := mid;
    if Enabled(cfg, mid, wait) {
      GoesFurther(cfg, s, mid, wait);
      due := Step(cfg, mid, wait);
    }
  }

  /** A blocked robot is freed by hand and its sleep runs out. */
  lemma SleepRunsOut(cfg: Config, s: State) returns (due: State)
    requires ValidConfig(cfg) && Inv(cfg, s) && s.navigating && s.pc.BlockedSleep?
    ensures GoesTo(cfg, s, due) && due.navigating && !due.blocked && due.now >= s.pc.wakeAt
    ensures due.pc == s.pc && due.route == s.route && due.cancelled == s.cancelled && due.holdSet == s.holdSet
  {
    var freed := Step(cfg, s, ObstacleCleared(true, true));
    GoesToItself(cfg, s);
    GoesFurther(cfg, s, s, ObstacleCleared(true, true));
    due := DeadlineComes(cfg, s, freed);
  }

  lemma PollOverlooksCancel(cfg: Config, s: State) returns (later: State)
    requires ValidConfig(cfg) && Inv(cfg, s) && s.navigating && s.pc.Polling?
    ensures GoesTo(cfg, s, later) && later.target != STILL
  {
    var a := PollReturned(FarReading(cfg, s.route), None);
    FarReadingCommandsMotion(cfg, s, s.pc.i);
    later := Step(cfg, s, a);
    assert later == UseReading(cfg, s, s.pc.i, FarReading(cfg, s.route), None);
    GoesToItself(cfg, s);
    GoesFurther(cfg, s, s, a);
  }

  lemma SleepOverlooksCancel(cfg: Config, s: State) returns (later: State)
    requires ValidConfig(cfg) && Inv(cfg, s) && s.navigating && s.pc.BlockedSleep? && !s.pc.inHold
    ensures GoesTo(cfg, s, later) && later.target != STILL
  {
    var due := SleepRunsOut(cfg, s);
    var far := FarReading(cfg, s.route);
    FarReadingCommandsMotion(cfg, due, s.pc.i);
    later := Step(cfg, due, WakeBlocked(Some(far)));
    assert later == UseReading(cfg, due, s.pc.i, far, Some(far));
    GoesFurther(cfg, s, due, WakeBlocked(Some(far)));
  }

  lemma CancelHoldsFrom(cfg: Config, s: State)
    requires ValidConfig(cfg) && Inv(cfg, s) && s.navigating
    ensures var cancelled := Step(cfg, s, CancelNavigation);
            (forall more :: GoesOn(cfg, cancelled, more) ==> RunFrom(cfg, cancelled, more).target == STILL)
            <==> !OverlooksCancel(s.pc)
  {
    var cancelled := Step(cfg, s, CancelNavigation);
    StepKeeps(cfg, s, CancelNavigation);
    if s.pc.Polling? {
      var later := PollOverlooksCancel(cfg, cancelled);
    } else if OverlooksCancel(s.pc) {
      var later := SleepOverlooksCancel(cfg, cancelled);
    } else {
      forall more | GoesOn(cfg, cancelled, more) ensures RunFrom(cfg, cancelled, more).target == STILL {
        RunStaysStopped(cfg, cancelled, more);
      }
    }
  }

  /** After a cancel at any moment of any run the target stays still until the navigation ends, whatever happens,
      exactly when the coroutine is not suspended at a point that overlooks the cancel. */
  lemma CancelHoldsExactly(cfg: Config, actions: seq<Action>)
    requires ValidConfig(cfg) && Run(cfg, actions).navigating
    ensures var cancelled := Step(cfg, Run(cfg, actions), CancelNavigation);
            (forall more :: GoesOn(cfg, cancelled, more) ==> RunFrom(cfg, cancelled, more).target == STILL)
            <==> !OverlooksCancel(Run(cfg, actions).pc)
  {
    RunKeeps(cfg, actions);
    CancelHoldsFrom(cfg, Run(cfg, actions));
  }

  // ---------- how a cancelled navigation ends ----------

  predicate EndsWith(s: State, outcome: Outcome) {
    !s.navigating && s.trace.Then? && s.trace.last == Ended(outcome)
  }

  /** The navigation under way can end with this outcome. */
  ghost predicate MayEnd(cfg: Config, s: State, outcome: Outcome) {
    exists mid, a :: GoesTo(cfg, s, mid) && EndsWith(Step(cfg, mid, a), outcome)
  }

  /** At the last waypoint, about to use a reading or waiting in its hold: nothing is left to do where a cancel would be
      noticed. A last waypoint with a hold not yet reached has its hold loop, which would notice. */
  predicate MaySucceed(s: State) {
    && !s.pc.Idle? && !s.pc.DriveSleep? && s.pc.i + 1 == |s.route|
    && (OverlooksCancel(s.pc) ==> !s.route[s.pc.i].hold)
  }

  /** What a reading leads to once the navigation is cancelled. */
  lemma CancelledReading(cfg: Config, s: State, i: nat, r: Reading, cached: Option<Reading>)
    requires s.navigating && s.cancelled && i < |s.route| && ReadingFor(r, s.route) && CacheFor(cached, s.route)
    ensures var later := UseReading(cfg, s, i, r, cached);
            if !r.connectionOk then EndsWith(later, Failed)
            else if r.distances[i] > cfg.tolerance then
              later.navigating && later.cancelled && later.pc.DriveSleep?
            else EndsWith(later, if i + 1 == |s.route| && !s.route[i].hold then Success else Cancelled)
  {
  }

  lemma CancelledDrive(cfg: Config, s: State, i: nat, cached: Option<Reading>)
    requires s.navigating && s.cancelled && i <= |s.route| && CacheFor(cached, s.route)
    ensures EndsWith(Drive(cfg, s, i, cached), if i == |s.route| then Success else Cancelled)
  {
  }

  lemma CancelledObservation(cfg: Config, s: State, cached: Option<Reading>)
    requires Inv(cfg, s) && s.navigating && s.cancelled && s.pc.BlockedSleep? && !s.pc.inHold && !s.blocked
    requires CacheFor(cached, s.route)
    ensures Opens(s, Observe(cfg, s, s.pc.i, cached))
  {
    if cached.Some? {
      CancelledReading(cfg, s, s.pc.i, cached.value, cached);
    }
  }

  /** What a step of a cancelled navigation may come to: it goes on, no nearer to another end than it was, or ends. */
  predicate Opens(s: State, later: State) {
    if later.navigating then
      && later.cancelled && later.route == s.route
      && (OverlooksCancel(later.pc) ==> OverlooksCancel(s.pc)) && (MaySucceed(later) ==> MaySucceed(s))
    else
      && !EndsWith(later, Blocked)
      && (EndsWith(later, Failed) ==> OverlooksCancel(s.pc)) && (EndsWith(later, Success) ==> MaySucceed(s))
  }

  lemma OwnStepOpens(cfg: Config, s: State, a: Action)
    requires Inv(cfg, s) && s.navigating && s.cancelled && Enabled(cfg, s, a) && IsOwn(a)
    ensures Opens(s, Effect(cfg, s, a))
  {
    match a
    case WakeDrive(cached) => CancelledDrive(cfg, s, s.pc.i, cached);
    case WakeBlocked(cached) =>
      if !s.blocked && !s.pc.inHold {
        CancelledObservation(cfg, s, cached);
      }
    case HoldTimedOut(cached) =>
      if s.holdSet {
        CancelledDrive(cfg, s, s.pc.i + 1, cached);
      }
    case PollReturned(r, cached) => CancelledReading(cfg, s, s.pc.i, r, cached);
    case _ =>
  }

  lemma OtherStepOpens(cfg: Config, s: State, a: Action)
    requires s.navigating && s.cancelled && Enabled(cfg, s, a) && !IsOwn(a)
    ensures Opens(s, Effect(cfg, s, a))
  {
    assert Effect(cfg, s, a).pc == s.pc && Effect(cfg, s, a).route == s.route;
  }

  lemma StepOpens(cfg: Config, s: State, a: Action)
    requires Inv(cfg, s) && s.navigating && s.cancelled
    ensures Opens(s, Step(cfg, s, a))
  {
    if Enabled(cfg, s, a) {
      if IsOwn(a) {
        OwnStepOpens(cfg, s, a);
      } else {
        OtherStepOpens(cfg, s, a);
      }
    }
  }

  lemma {:induction false} RunOpensNoEnd(cfg: Config, s: State, more: seq<Action>)
    requires ValidConfig(cfg) && Inv(cfg, s) && s.cancelled && GoesOn(cfg, s, more)
    ensures var later := RunFrom(cfg, s, more);
            && Inv(cfg, later) && later.navigating && later.cancelled
            && (OverlooksCancel(later.pc) ==> OverlooksCancel(s.pc)) && (MaySucceed(later) ==> MaySucceed(s))
  {
    assert more[..|more|] == more;
    if more != [] {
      var before := more[..|more| - 1];
      assert forall k :: 0 <= k <= |before| ==> before[..k] == more[..k];
      RunOpensNoEnd(cfg, s, before);
      StepKeeps(cfg, RunFrom(cfg, s, before), more[|more| - 1]);
      StepOpens(cfg, RunFrom(cfg, s, before), more[|more| - 1]);
    }
  }

  lemma EndsOnlyThere(cfg: Config, s: State, outcome: Outcome)
    requires ValidConfig(cfg) && Inv(cfg, s) && s.cancelled && MayEnd(cfg, s, outcome)
    ensures outcome != Blocked
    ensures outcome == Failed ==> OverlooksCancel(s.pc)
    ensures outcome == Success ==> MaySucceed(s)
  {
    var mid, a :| GoesTo(cfg, s, mid) && EndsWith(Step(cfg, mid, a), outcome);
    var more :| GoesOn(cfg, s, more) && RunFrom(cfg, s, more) == mid;
    RunOpensNoEnd(cfg, s, more);
    StepOpens(cfg, mid, a);
  }

  function LostReading(route: seq<Waypoint>): (r: Reading)
    ensures ReadingFor(r, route)
  {
    Reading(false, seq(|route|, _ => 0.0), seq(|route|, _ => 0.0), 0.0)
  }

  function ThereReading(route: seq<Waypoint>): (r: Reading)
    ensures ReadingFor(r, route)
  {
    Reading(true, seq(|route|, _ => 0.0), seq(|route|, _ => 0.0), 0.0)
  }

  lemma MayFail(cfg: Config, s: State)
    requires ValidConfig(cfg) && Inv(cfg, s) && s.navigating && OverlooksCancel(s.pc)
    ensures MayEnd(cfg, s, Failed)
  {
    if s.pc.Polling? {
      GoesToItself(cfg, s);
      assert EndsWith(Step(cfg, s, PollRaised), Failed);
    } else {
      var due := SleepRunsOut(cfg, s);
      var lost := LostReading(s.route);
      assert ReadingFor(lost, due.route) && s.pc.i < |s.route|;
      assert Step(cfg, due, WakeBlocked(Some(lost))) == UseReading(cfg, due, s.pc.i, lost, Some(lost));
      assert EndsWith(Step(cfg, due, WakeBlocked(Some(lost))), Failed);
    }
  }

  lemma HoldMaySucceed(cfg: Config, s: State, mid: State)
    requires ValidConfig(cfg) && GoesTo(cfg, s, mid) && mid.navigating
    requires mid.pc.HoldWait? && mid.holdSet && mid.pc.i + 1 == |mid.route|
    ensures MayEnd(cfg, s, Success)
  {
    var due := DeadlineComes(cfg, s, mid);
    assert EndsWith(Step(cfg, due, HoldTimedOut(None)), Success);
  }

  lemma ReadingMaySucceed(cfg: Config, s: State, i: nat)
    requires ValidConfig(cfg) && i + 1 == |s.route| && !s.route[i].hold
    ensures EndsWith(UseReading(cfg, s, i, ThereReading(s.route), None), Success)
    ensures EndsWith(UseReading(cfg, s, i, ThereReading(s.route), Some(ThereReading(s.route))), Success)
  {
  }

  lemma LastWaypointMaySucceed(cfg: Config, s: State)
    requires ValidConfig(cfg) && Inv(cfg, s) && s.navigating && s.holdSet && MaySucceed(s)
    ensures MayEnd(cfg, s, Success)
  {
    var there := ThereReading(s.route);
    GoesToItself(cfg, s);
    match s.pc
    case Polling(i) =>
      ReadingMaySucceed(cfg, s, i);
      assert EndsWith(Step(cfg, s, PollReturned(there, None)), Success);
    case HoldWait(_, _) =>
      HoldMaySucceed(cfg, s, s);
    case BlockedSleep(i, inHold, _) =>
      var due := SleepRunsOut(cfg, s);
      if inHold {
        GoesFurther(cfg, s, due, WakeBlocked(None));
        HoldMaySucceed(cfg, s, Step(cfg, due, WakeBlocked(None)));
      } else {
        ReadingMaySucceed(cfg, due, i);
        assert EndsWith(Step(cfg, due, WakeBlocked(Some(there))), Success);
      }
  }

  /** A navigation cancelled at any moment of any run never ends blocked; it can still fail exactly where the cancel is
      overlooked, and still succeed exactly if it is at the last waypoint, in its hold or, there being none, about to
      use a reading. Everywhere else it can end only as cancelled. */
  lemma CancelledEndsExactly(cfg: Config, actions: seq<Action>)
    requires ValidConfig(cfg) && Run(cfg, actions).navigating
    ensures var s := Run(cfg, actions);
            var cancelled := Step(cfg, s, CancelNavigation);
            && (MayEnd(cfg, cancelled, Failed) <==> OverlooksCancel(s.pc))
            && (MayEnd(cfg, cancelled, Success) <==> MaySucceed(s))
            && !MayEnd(cfg, cancelled, Blocked)
  {
    var s := Run(cfg, actions);
    var cancelled := Step(cfg, s, CancelNavigation);
    RunKeeps(cfg, actions);
    StepKeeps(cfg, s, CancelNavigation);
    if OverlooksCancel(s.pc) {
      MayFail(cfg, cancelled);
    }
    if MaySucceed(s) {
      LastWaypointMaySucceed(cfg, cancelled);
    }
    forall outcome | MayEnd(cfg, cancelled, outcome)
      ensures outcome != Blocked && (outcome == Failed ==> OverlooksCancel(s.pc))
      ensures outcome == Success ==> MaySucceed(s)
    {
      EndsOnlyThere(cfg, cancelled, outcome);
    }
  }
}
