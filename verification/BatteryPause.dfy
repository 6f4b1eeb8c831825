/** What becomes of a pause that the operator has entered when batteries run low. */
module BatteryPauses {
  import opened Common
  import opened StateMonitors
  import opened BatteryManagers

  /** How many discharges a word brings to an end: the recharges that follow a critical. */
  function DischargesEnded(w: seq<BatteryEvent>): nat {
    if w == [] then 0
    else
      var before, e := w[..|w| - 1], w[|w| - 1];
      DischargesEnded(before) + if e == Recharged && EndsCritical(before) then 1 else 0
  }

  /** The discharges of the default robot that the manager has seen the end of. */
  function SeenToEnd(s: System): nat {
    DischargesEnded(WordOf(LEGACY_ROBOT, s.handled))
  }

  /** The dispatcher is paused after the first run and throughout what follows. */
  ghost predicate StaysPaused(t: Thresholds, registered: set<RobotId>, actions: seq<Action>, more: seq<Action>) {
    forall k :: 0 <= k <= |more| ==> BatteryRun(t, registered, actions + more[..k]).manager.dispatcherPaused
  }

  lemma HandledOneMore(handled: seq<Event>, e: Event)
    ensures var w := WordOf(LEGACY_ROBOT, handled);
            DischargesEnded(WordOf(LEGACY_ROBOT, handled + [e])) == DischargesEnded(w)
              + if e == Event(LEGACY_ROBOT, Recharged) && EndsCritical(w) then 1 else 0
  {
    var w := WordOf(LEGACY_ROBOT, handled);
    assert (handled + [e])[..|handled|] == handled;
    assert (w + [e.kind])[..|w|] == w;
  }

  lemma HandleLiftsExactly(registered: set<RobotId>, m: Manager, e: Event)
    requires m.dispatcherPaused && (Flag(m.pausedFor, e.robot) ==> ShouldPause(registered, e.robot))
    ensures Handle(registered, m, e).dispatcherPaused <==>
              registered != {} || e != Event(LEGACY_ROBOT, Recharged) || !Flag(m.charging, LEGACY_ROBOT)
  {
  }

  /** What a step does to the pause, from how many discharges have been seen to their end before and after. */
  predicate LiftsExactly(registered: set<RobotId>, s: System, later: System) {
    && SeenToEnd(later) >= SeenToEnd(s)
    && (s.manager.dispatcherPaused ==>
          (later.manager.dispatcherPaused <==> registered != {} || SeenToEnd(later) == SeenToEnd(s)))
  }

  lemma HandleStepLiftsExactly(registered: set<RobotId>, s: System)
    requires s.queue != [] && s.manager.handler.Idle?
    requires Flag(s.manager.pausedFor, s.queue[0].robot) ==> ShouldPause(registered, s.queue[0].robot)
    requires registered == {} ==>
               (Flag(s.manager.charging, LEGACY_ROBOT) <==> EndsCritical(WordOf(LEGACY_ROBOT, s.handled)))
    ensures LiftsExactly(registered, s, HandleStep(registered, s))
  {
    HandledOneMore(s.handled, s.queue[0]);
    if s.manager.dispatcherPaused {
      HandleLiftsExactly(registered, s.manager, s.queue[0]);
    }
  }

  /** Of the manager's and the monitors' steps only the end of a discharge of the default robot lifts a pause, and only
      while no robot is registered. */
  lemma StepLiftsExactly(t: Thresholds, registered: set<RobotId>, s: System, a: Action)
    requires ValidThresholds(t) && Reachable(t, registered, s) && IsUndisturbed(a)
    ensures LiftsExactly(registered, s, BatteryStep(t, registered, s, a))
  {
    if a.SubmissionReturned? {
      QueueAnswersNothing(a.result);
    } else if a.HandleNext? && s.queue != [] && s.manager.handler.Idle? {
      ReachableKeeps(t, registered, s, s.queue[0].robot);
      ChargingFollowsTheCycle(t, registered, s, LEGACY_ROBOT);
      HandleStepLiftsExactly(registered, s);
    }
  }

  lemma RunOneMore(t: Thresholds, registered: set<RobotId>, actions: seq<Action>, a: Action)
    ensures BatteryRun(t, registered, actions + [a])
            == BatteryStep(t, registered, BatteryRun(t, registered, actions), a)
    ensures Reachable(t, registered, BatteryRun(t, registered, actions))
  {
    assert (actions + [a])[..|actions|] == actions;
  }

  lemma LastStepLiftsExactly(t: Thresholds, registered: set<RobotId>, actions: seq<Action>, more: seq<Action>)
    requires ValidThresholds(t) && more != [] && IsUndisturbed(more[|more| - 1])
    ensures LiftsExactly(registered, BatteryRun(t, registered, actions + more[..|more| - 1]),
                         BatteryRun(t, registered, actions + more))
  {
    var before, a := actions + more[..|more| - 1], more[|more| - 1];
    assert actions + more == before + [a];
    OneStepLiftsExactly(t, registered, before, a);
  }

  lemma OneStepLiftsExactly(t: Thresholds, registered: set<RobotId>, actions: seq<Action>, a: Action)
    requires ValidThresholds(t) && IsUndisturbed(a)
    ensures LiftsExactly(registered, BatteryRun(t, registered, actions), BatteryRun(t, registered, actions + [a]))
  {
    RunOneMore(t, registered, actions, a);
    StepLiftsExactly(t, registered, BatteryRun(t, registered, actions), a);
  }

  lemma SurvivesNothingYet(t: Thresholds, registered: set<RobotId>, actions: seq<Action>)
    ensures actions + [] == actions
    ensures StaysPaused(t, registered, actions, []) <==> BatteryRun(t, registered, actions).manager.dispatcherPaused
  {
    var none: seq<Action> := [];
    assert actions + none == actions && none[..0] == none;
  }

  lemma SurvivesOneMore(t: Thresholds, registered: set<RobotId>, actions: seq<Action>, more: seq<Action>)
    requires more != []
    ensures StaysPaused(t, registered, actions, more) <==>
              StaysPaused(t, registered, actions, more[..|more| - 1])
              && BatteryRun(t, registered, actions + more).manager.dispatcherPaused
  {
    var before := more[..|more| - 1];
    assert forall k :: 0 <= k <= |before| ==> before[..k] == more[..k];
    assert more[..|more|] == more;
  }

  /** What a run keeps to from a pause on. */
  ghost predicate SurvivesExactly(t: Thresholds, registered: set<RobotId>, actions: seq<Action>, more: seq<Action>) {
    var s, later := BatteryRun(t, registered, actions), BatteryRun(t, registered, actions + more);
    && SeenToEnd(later) >= SeenToEnd(s)
    && (StaysPaused(t, registered, actions, more) <==> registered != {} || SeenToEnd(later) == SeenToEnd(s))
  }

  lemma LastStateIsPaused(t: Thresholds, registered: set<RobotId>, actions: seq<Action>, more: seq<Action>)
    requires StaysPaused(t, registered, actions, more)
    ensures BatteryRun(t, registered, actions + more).manager.dispatcherPaused
  {
    assert more[..|more|] == more;
  }

  lemma SurvivesExactlyOneMore(t: Thresholds, registered: set<RobotId>, actions: seq<Action>, more: seq<Action>)
    requires more != [] && SurvivesExactly(t, registered, actions, more[..|more| - 1])
    requires LiftsExactly(registered, BatteryRun(t, registered, actions + more[..|more| - 1]),
                          BatteryRun(t, registered, actions + more))
    ensures SurvivesExactly(t, registered, actions, more)
  {
    var before := more[..|more| - 1];
    SurvivesOneMore(t, registered, actions, more);
    if StaysPaused(t, registered, actions, before) {
      LastStateIsPaused(t, registered, actions, before);
    }
  }

  lemma {:induction false} RunSurvivesExactly(t: Thresholds, registered: set<RobotId>, actions: seq<Action>,
                                              more: seq<Action>)
    requires ValidThresholds(t) && BatteryRun(t, registered, actions).manager.dispatcherPaused
    requires forall a :: a in more ==> IsUndisturbed(a)
    ensures SurvivesExactly(t, registered, actions, more)
  {
    if more == [] {
      SurvivesNothingYet(t, registered, actions);
    } else {
      var before := more[..|more| - 1];
      assert more[|more| - 1] in more && forall b :: b in before ==> b in more;
      RunSurvivesExactly(t, registered, actions, before);
      LastStepLiftsExactly(t, registered, actions, more);
      SurvivesExactlyOneMore(t, registered, actions, more);
    }
  }

  /** A pause in force, whoever entered it, outlasts whatever the monitors and the manager do next exactly if a robot is
      registered or no discharge of the default robot is seen to its end: an operator's pause does not survive the
      recharge of an unregistered robot. */
  lemma PauseSurvivesExactly(t: Thresholds, registered: set<RobotId>, actions: seq<Action>, more: seq<Action>)
    requires ValidThresholds(t) && BatteryRun(t, registered, actions).manager.dispatcherPaused
    requires forall a :: a in more ==> IsUndisturbed(a)
    ensures var s, later := BatteryRun(t, registered, actions), BatteryRun(t, registered, actions + more);
            StaysPaused(t, registered, actions, more) <==> registered != {} || SeenToEnd(later) == SeenToEnd(s)
  {
    RunSurvivesExactly(t, registered, actions, more);
  }
}
