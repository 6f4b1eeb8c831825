/** The navigator and heartbeat objects, with the navigator's code cut at its suspension points. */
module Navigators {
  import opened Common
  import opened Kinematics
  import opened NavigatorModel
  import opened NavigatorTrace
  import opened NavigatorSafety

  /** The shared velocity cell; its lock is never held across a suspension. */
  class HeartbeatController {
    var targetVelocity: Velocity

    constructor ()
      ensures targetVelocity == STILL
    {
      targetVelocity := STILL;
    }

    method SetTargetVelocity(vx: real, vy: real, yawRate: real)
      modifies this
      ensures targetVelocity == Velocity(vx, vy, yawRate)
    {
      targetVelocity := Velocity(vx, vy, yawRate);
    }

    method ClearTargetVelocity()
      modifies this
      ensures targetVelocity == STILL
    {
      targetVelocity := STILL;
    }
  }

  class Navigator {
    const cfg: Config
    const heartbeat: HeartbeatController
    var now: real
    var isNavigating: bool
    var route: seq<Waypoint>
    var completedWaypoints: nat
    var cancelled: bool
    var blocked: bool
    var blockedStartedAt: Option<real>
    var obstacleDetectedAt: Option<real>
    var obstacleCount: int
    var requiresHmiConfirmation: bool
    var stableClearTask: Option<real>
    var resumeRampStartedAt: Option<real>
    var holdEvent: bool
    // Where the route coroutine is suspended.
    var pc: Pc
    ghost var trace: Trace

    ghost function View(): State
      reads this, heartbeat
    {
      State(now, isNavigating, route, completedWaypoints, cancelled, blocked, blockedStartedAt, obstacleDetectedAt,
            obstacleCount, requiresHmiConfirmation, stableClearTask, resumeRampStartedAt, holdEvent,
            heartbeat.targetVelocity, pc, trace)
    }

    /** The invariant of the machine. */
    ghost predicate Valid()
      reads this, heartbeat
    {
      ValidConfig(cfg) && Inv(cfg, View())
    }

    constructor (cfg: Config, heartbeat: HeartbeatController)
      requires ValidConfig(cfg) && heartbeat.targetVelocity == STILL
      ensures this.cfg == cfg && this.heartbeat == heartbeat && Valid() && View() == INITIAL
    {
      this.cfg, this.heartbeat := cfg, heartbeat;
      now, isNavigating, route, completedWaypoints, cancelled := 0.0, false, [], 0, false;
      blocked, blockedStartedAt, obstacleDetectedAt := false, None, None;
      obstacleCount, requiresHmiConfirmation := 0, false;
      stableClearTask, resumeRampStartedAt, holdEvent, pc, trace := None, None, false, Idle, Begin;
    }

    method HandleHumanConfirmation(mine: bool)
      requires Valid()
      modifies this
      ensures Valid() && View() == Step(cfg, old(View()), HumanConfirmed(mine))
    {
      StepKeeps(cfg, View(), HumanConfirmed(mine));
      if !isNavigating || !mine {
        return;
      }
      holdEvent := true;
      trace := Then(trace, Released);
    }

    method HandleObstacleDetected(mine: bool)
      requires Valid()
      modifies this, heartbeat
      ensures Valid() && View() == Step(cfg, old(View()), ObstacleDetected(mine))
    {
      StepKeeps(cfg, View(), ObstacleDetected(mine));
      if isNavigating && mine {
        StopForObstacle();
      }
    }

    method StopForObstacle()
      modifies this, heartbeat
      ensures View() == Detect(cfg, old(View()))
    {
      trace := Then(trace, Detected(now, !blocked));
      stableClearTask := None;
      if !blocked {
        BeginEpisode();
      }
      heartbeat.ClearTargetVelocity();
    }

    method BeginEpisode()
      modifies this
      ensures View() == old(View()).(blocked := true, blockedAt := Some(now), detectedAt := Some(now),
                                     count := old(obstacleCount) + 1,
                                     manualNeeded := old(requiresHmiConfirmation)
                                         || old(obstacleCount) + 1 >= cfg.repeatCount)
    {
      blocked := true;
      blockedStartedAt := Some(now);
      obstacleDetectedAt := Some(now);
      obstacleCount := obstacleCount + 1;
      if obstacleCount >= cfg.repeatCount && !requiresHmiConfirmation {
        requiresHmiConfirmation := true;
      }
    }

    method ApplyObstacleClear(reason: Reason)
      modifies this
      ensures View() == ApplyClear(cfg, old(View()), reason)
    {
      trace := Then(trace, Resumed(reason, now));
      blocked := false;
      blockedStartedAt := None;
      obstacleDetectedAt := None;
      if cfg.resumeRamp > 0.0 {
        resumeRampStartedAt := Some(now);
      }
    }

    method HandleObstacleCleared(mine: bool, manual: bool)
      requires Valid()
      modifies this
      ensures Valid() && View() == Step(cfg, old(View()), ObstacleCleared(mine, manual))
    {
      StepKeeps(cfg, View(), ObstacleCleared(mine, manual));
      if isNavigating && blocked && mine {
        ConsiderClearing(manual);
      }
    }

    method ConsiderClearing(manual: bool)
      modifies this
      ensures View() == Clear(cfg, old(View()), manual)
    {
      if requiresHmiConfirmation && !manual {
        return;
      }
      if manual {
        stableClearTask := None;
        requiresHmiConfirmation := false;
        ApplyObstacleClear(Manual);
        return;
      }
      if obstacleDetectedAt.Some? && now - obstacleDetectedAt.value < cfg.minHold {
        DropSpuriousEpisode();
        return;
      }
      stableClearTask := Some(now);
      trace := Then(trace, ClearArmed(now));
    }

    /** A very short episode does not count. */
    method DropSpuriousEpisode()
      requires !requiresHmiConfirmation && obstacleDetectedAt.Some? && now - obstacleDetectedAt.value < cfg.minHold
      modifies this
      ensures View() == Clear(cfg, old(View()), false)
    {
      obstacleCount := if obstacleCount - 1 > 0 then obstacleCount - 1 else 0;
      requiresHmiConfirmation := requiresHmiConfirmation && obstacleCount >= cfg.repeatCount;
      stableClearTask := None;
      ApplyObstacleClear(Spurious);
    }

    method RunStableClearWait()
      requires Valid() && Enabled(cfg, View(), TimerFired)
      modifies this
      ensures Valid() && View() == Step(cfg, old(View()), TimerFired)
    {
      StepKeeps(cfg, View(), TimerFired);
      stableClearTask := None;
      if isNavigating && blocked {
        ApplyObstacleClear(StableClear);
      }
    }

    method CancelNavigation()
      requires Valid()
      modifies this, heartbeat
      ensures Valid() && View() == Step(cfg, old(View()), Action.CancelNavigation)
    {
      StepKeeps(cfg, View(), Action.CancelNavigation);
      RequestCancel();
    }

    method RequestCancel()
      modifies this, heartbeat
      ensures View() == Step(cfg, old(View()), Action.CancelNavigation)
    {
      cancelled := true;
      holdEvent := true;
      heartbeat.ClearTargetVelocity();
      if isNavigating {
        trace := Then(trace, CancelRequested);
      }
    }

    /** The finally clause of a navigation. */
    method LeaveNavigation(outcome: Outcome)
      modifies this, heartbeat
      ensures View() == Finish(old(View()), outcome)
    {
      stableClearTask := None;
      heartbeat.ClearTargetVelocity();
      isNavigating := false;
      blocked := false;
      blockedStartedAt := None;
      pc := Idle;
      trace := Then(trace, Ended(outcome));
    }

    /** One turn of _wait_while_blocked. */
    method WaitWhileBlocked(i: nat, inHold: bool)
      requires blocked
      modifies this, heartbeat
      ensures View() == CheckBlocked(cfg, old(View()), i, inHold)
    {
      if cancelled {
        LeaveNavigation(Cancelled);
        return;
      }
      if blockedStartedAt.Some? {
        var elapsed := now - blockedStartedAt.value;
        if elapsed >= cfg.holdTimeout {
          stableClearTask := None;
          heartbeat.ClearTargetVelocity();
          LeaveNavigation(Blocked);
          return;
        }
      }
      pc := BlockedSleep(i, inHold, now + LOOP_SECONDS);
    }

    /** One turn of _wait_for_hold_confirmation. */
    method WaitForHoldConfirmation(i: nat)
      modifies this, heartbeat
      ensures View() == CheckHold(cfg, old(View()), i)
    {
      if cancelled {
        LeaveNavigation(Cancelled);
      } else if blocked {
        WaitWhileBlocked(i, true);
      } else {
        pc := HoldWait(i, now + LOOP_SECONDS);
      }
    }

    method ComputeResumeRampFactor() returns (factor: real)
      modifies this
      ensures (factor, resumeRampStartedAt) == RampFactor(old(resumeRampStartedAt), cfg.resumeRamp, now)
      ensures View() == old(View()).(rampAt := resumeRampStartedAt)
    {
      if resumeRampStartedAt.None? || cfg.resumeRamp <= 0.0 {
        return 1.0;
      }
      var elapsed := now - resumeRampStartedAt.value;
      if elapsed >= cfg.resumeRamp {
        resumeRampStartedAt := None;
        return 1.0;
      }
      return elapsed / cfg.resumeRamp;
    }

    /** The loop over the waypoints, from the top of _drive_to_waypoint for waypoint i. */
    method DriveToWaypoint(i: nat, cached: Option<Reading>)
      requires i <= |route| && CacheFor(cached, route)
      modifies this, heartbeat
      ensures View() == Drive(cfg, old(View()), i, cached)
      decreases |route| - i, 2
    {
      if i == |route| {
        heartbeat.ClearTargetVelocity();
        LeaveNavigation(Success);
      } else if cancelled {
        LeaveNavigation(Cancelled);
      } else if blocked {
        WaitWhileBlocked(i, false);
      } else {
        GetStateOrPoll(i, cached);
      }
    }

    method GetStateOrPoll(i: nat, cached: Option<Reading>)
      requires i < |route| && CacheFor(cached, route)
      modifies this, heartbeat
      ensures View() == Observe(cfg, old(View()), i, cached)
      decreases |route| - i, 1
    {
      if cached.None? {
        pc := Polling(i);
      } else {
        ActOnState(i, cached.value, cached);
      }
    }

    /** The rest of the drive loop once a state is at hand. */
    method ActOnState(i: nat, r: Reading, cached: Option<Reading>)
      requires i < |route| && ReadingFor(r, route) && CacheFor(cached, route)
      modifies this, heartbeat
      ensures View() == UseReading(cfg, old(View()), i, r, cached)
      decreases |route| - i, 0
    {
      if !r.connectionOk {
        LeaveNavigation(Failed);
        return;
      }
      if r.distances[i] <= cfg.tolerance {
        ReachWaypoint(i);
        if route[i].hold {
          WaitForHoldConfirmation(i);
        } else {
          DriveToWaypoint(i + 1, cached);
        }
      } else {
        CommandVelocity(i, r);
      }
    }

    /** Stop, count and publish the arrival, and forget earlier releases before a hold. */
    method ReachWaypoint(i: nat)
      requires i < |route|
      modifies this, heartbeat
      ensures View() == Arrive(old(View()), i)
    {
      heartbeat.ClearTargetVelocity();
      completedWaypoints := completedWaypoints + 1;
      trace := Then(trace, Arrived(i));
      if route[i].hold {
        holdEvent := false;
      }
    }

    method CommandVelocity(i: nat, r: Reading)
      requires i < |route| && ReadingFor(r, route)
      modifies this, heartbeat
      ensures View() == SetTarget(cfg, old(View()), i, r)
    {
      var ramp := ComputeResumeRampFactor();
      var v := Command(cfg.limits, route[i].velocity, r.distances[i], r.bearings[i], r.yaw, ramp);
      heartbeat.SetTargetVelocity(v.vx, v.vy, v.yawRate);
      trace := Then(trace, Commanded(i, r.distances[i], v));
      pc := DriveSleep(i, now + LOOP_SECONDS);
    }

    /** After the sleep of the drive loop. */
    method ResumeDriving(cached: Option<Reading>)
      requires Valid() && Enabled(cfg, View(), WakeDrive(cached))
      modifies this, heartbeat
      ensures Valid() && View() == Step(cfg, old(View()), WakeDrive(cached))
    {
      StepKeeps(cfg, View(), WakeDrive(cached));
      DriveToWaypoint(pc.i, cached);
    }

    /** After the poll for a first state. */
    method ResumePolled(r: Reading, cached: Option<Reading>)
      requires Valid() && Enabled(cfg, View(), PollReturned(r, cached))
      modifies this, heartbeat
      ensures Valid() && View() == Step(cfg, old(View()), PollReturned(r, cached))
    {
      StepKeeps(cfg, View(), PollReturned(r, cached));
      ActOnState(pc.i, r, cached);
    }

    /** The poll raised. */
    method FailPoll()
      requires Valid() && Enabled(cfg, View(), PollRaised)
      modifies this, heartbeat
      ensures Valid() && View() == Step(cfg, old(View()), PollRaised)
    {
      StepKeeps(cfg, View(), PollRaised);
      LeaveNavigation(Failed);
    }

    /** After the sleep inside _wait_while_blocked; cancellation is not checked again once the robot is free. */
    method ResumeBlocked(cached: Option<Reading>)
      requires Valid() && Enabled(cfg, View(), WakeBlocked(cached))
      modifies this, heartbeat
      ensures Valid() && View() == Step(cfg, old(View()), WakeBlocked(cached))
    {
      StepKeeps(cfg, View(), WakeBlocked(cached));
      if blocked {
        WaitWhileBlocked(pc.i, pc.inHold);
      } else if pc.inHold {
        pc := HoldWait(pc.i, now + LOOP_SECONDS);
      } else {
        GetStateOrPoll(pc.i, cached);
      }
    }

    /** After the wait for the hold event returned. */
    method ResumeReleased(cached: Option<Reading>)
      requires Valid() && Enabled(cfg, View(), HoldReleased(cached))
      modifies this, heartbeat
      ensures Valid() && View() == Step(cfg, old(View()), HoldReleased(cached))
    {
      StepKeeps(cfg, View(), HoldReleased(cached));
      if cancelled {
        LeaveNavigation(Cancelled);
      } else {
        DriveToWaypoint(pc.i + 1, cached);
      }
    }

    /** After the wait for the hold event timed out: only the event itself is looked at before moving on. */
    method ResumeTimedOut(cached: Option<Reading>)
      requires Valid() && Enabled(cfg, View(), HoldTimedOut(cached))
      modifies this, heartbeat
      ensures Valid() && View() == Step(cfg, old(View()), HoldTimedOut(cached))
    {
      StepKeeps(cfg, View(), HoldTimedOut(cached));
      if holdEvent {
        DriveToWaypoint(pc.i + 1, cached);
      } else {
        WaitForHoldConfirmation(pc.i);
      }
    }

    /** The body of the navigation lock. */
    method ResetForRoute(newRoute: seq<Waypoint>)
      modifies this
      ensures View() == Begun(old(View()), newRoute)
    {
      isNavigating, route, completedWaypoints, cancelled := true, newRoute, 0, false;
      ResetBlocking();
      ResetObstaclePolicy();
    }

    method ResetBlocking()
      modifies this
      ensures View() == old(View()).(blocked := false, blockedAt := None, holdSet := false, trace := Begin)
    {
      blocked, blockedStartedAt, holdEvent, trace := false, None, false, Begin;
    }

    method ResetObstaclePolicy()
      modifies this
      ensures View() == old(View()).(detectedAt := None, count := 0, manualNeeded := false, timer := None,
                                     rampAt := None)
    {
      obstacleCount, obstacleDetectedAt, requiresHmiConfirmation := 0, None, false;
      stableClearTask, resumeRampStartedAt := None, None;
    }

    /** A second route is refused with an error and no effect. */
    method ExecuteRouteDefinition(newRoute: seq<Waypoint>, cached: Option<Reading>) returns (started: bool)
      requires Valid() && ValidRoute(newRoute) && CacheFor(cached, newRoute)
      modifies this, heartbeat
      ensures Valid() && started == !old(isNavigating)
      ensures View() == Step(cfg, old(View()), Start(newRoute, cached))
      ensures !started ==> View() == old(View())
    {
      StepKeeps(cfg, View(), Start(newRoute, cached));
      if isNavigating {
        return false;
      }
      ResetForRoute(newRoute);
      DriveToWaypoint(0, cached);
      return true;
    }

    /** What the object thereby guarantees: manual confirmation is required exactly at the threshold, a pending timer
        means a blocked robot, and the arrivals are those of the waypoints completed. */
    lemma PolicyHolds()
      requires Valid()
      ensures isNavigating ==> (requiresHmiConfirmation <==> blocked && obstacleCount >= cfg.repeatCount)
      ensures stableClearTask.Some? ==> isNavigating && blocked && !requiresHmiConfirmation
      ensures completedWaypoints == |Arrivals(trace)|
      ensures !isNavigating ==> heartbeat.targetVelocity == STILL
    {
    }
  }
}
