/** What lies behind a patrol dispatch: the checks, the lock and the activation of the cycle. */
module PatrolChecks {
  import opened Common
  import opened PatrolRecords
  import opened PatrolModel
  import opened PatrolSafety
  import opened PatrolOutcomes

  // ---------- the dispatch lock ----------

  /** Whoever the lock names is inside it. */
  predicate LockOk(s: State) {
    s.lock.Some? ==> s.lock.value < |s.frames| && HoldsLock(s.frames[s.lock.value].pc)
  }

  lemma ContinueKeepsLock(limit: nat, s: State, c: nat)
    requires Inv(limit, s) && LockOk(s) && Enabled(s, Resume(c))
    ensures LockOk(Continue(limit, s, c))
  {
  }

  lemma CommitKeepsLock(s: State, c: nat)
    requires LockOk(s) && Enabled(s, Commit(c))
    ensures LockOk(CommitTurn(s, c))
  {
  }

  lemma OthersKeepLock(limit: nat, s: State, a: Action)
    requires LockOk(s) && Enabled(s, a) && !a.Resume? && !a.Commit?
    ensures LockOk(Effect(limit, s, a))
  {
  }

  lemma {:induction false} RunKeepsLock(limit: nat, actions: seq<Action>)
    requires limit > 0
    ensures LockOk(Run(limit, actions))
  {
    if actions != [] {
      var s, a := Run(limit, actions[..|actions| - 1]), actions[|actions| - 1];
      RunKeeps(limit, actions[..|actions| - 1]);
      RunKeepsLock(limit, actions[..|actions| - 1]);
      if Enabled(s, a) {
        match a
        case Resume(c) => ContinueKeepsLock(limit, s, c);
        case Commit(c) => CommitKeepsLock(s, c);
        case _ => OthersKeepLock(limit, s, a);
      }
    }
  }

  /** In every reachable state the dispatch lock is taken exactly by the one coroutine between getting it and leaving
      it: it is never left behind. */
  lemma LockIsHeldExactly(limit: nat, actions: seq<Action>, c: nat)
    requires limit > 0
    ensures var s := Run(limit, actions);
            s.lock == Some(c) <==> c < |s.frames| && HoldsLock(s.frames[c].pc)
  {
    RunKeeps(limit, actions);
    RunKeepsLock(limit, actions);
  }

  // ---------- the checks ----------

  /** How many of the two checks a coroutine has passed. */
  function Passed(pc: Pc): nat {
    match pc
    case Returned => 0
    case AwaitingLock => 1
    case _ => 2
  }

  /** The start of this coroutine: not suspended, its robot neither at work nor navigating. */
  predicate IsGoodStart(s: State, a: Action, c: nat) {
    a.StartDispatch? && !a.navigating && c == |s.frames| && !s.suspended && a.robot !in s.active
  }

  /** The lock given to this coroutine, its robot still neither at work nor navigating. */
  predicate IsGoodLock(s: State, a: Action, c: nat) {
    a == AcquireLock(c, false) && c < |s.frames| && s.frames[c].robot !in s.active && s.lock == None
  }

  predicate PassedBy(s: State, a: Action, later: State, c: nat)
    requires c < |later.frames|
  {
    var now, before := Passed(later.frames[c].pc), if c < |s.frames| then Passed(s.frames[c].pc) else 0;
    && (now >= 1 ==> before >= 1 || IsGoodStart(s, a, c))
    && (now >= 2 ==> before >= 2 || IsGoodLock(s, a, c))
  }

  lemma ContinuePassesNothing(limit: nat, s: State, c: nat)
    requires Enabled(s, Resume(c)) && c < |Continue(limit, s, c).frames|
    ensures PassedBy(s, Resume(c), Continue(limit, s, c), c)
  {
  }

  lemma CommitPassesNothing(s: State, c: nat)
    requires Enabled(s, Commit(c)) && c < |CommitTurn(s, c).frames|
    ensures PassedBy(s, Commit(c), CommitTurn(s, c), c)
  {
  }

  lemma OthersPass(limit: nat, s: State, a: Action, c: nat)
    requires Enabled(s, a) && !a.Resume? && !a.Commit? && c < |Effect(limit, s, a).frames|
    ensures PassedBy(s, a, Effect(limit, s, a), c)
  {
  }

  lemma StepPasses(limit: nat, s: State, a: Action, c: nat)
    requires c < |Step(limit, s, a).frames|
    ensures PassedBy(s, a, Step(limit, s, a), c)
  {
    if Enabled(s, a) {
      match a
      case Resume(d) =>
        ContinueMovesOne(limit, s, d);
        ContinuePassesNothing(limit, s, d);
      case Commit(d) =>
        CommitMovesOne(s, d);
        CommitPassesNothing(s, d);
      case _ => OthersPass(limit, s, a, c);
    }
  }

  ghost predicate StartedWell(limit: nat, actions: seq<Action>, c: nat) {
    exists i :: 0 <= i < |actions| && IsGoodStart(Run(limit, actions[..i]), actions[i], c)
  }

  ghost predicate LockedWell(limit: nat, actions: seq<Action>, c: nat) {
    exists i :: 0 <= i < |actions| && IsGoodLock(Run(limit, actions[..i]), actions[i], c)
  }

  lemma OneActionMore(limit: nat, actions: seq<Action>, a: Action, c: nat)
    ensures StartedWell(limit, actions, c) || IsGoodStart(Run(limit, actions), a, c) ==>
              StartedWell(limit, actions + [a], c)
    ensures LockedWell(limit, actions, c) || IsGoodLock(Run(limit, actions), a, c) ==>
              LockedWell(limit, actions + [a], c)
  {
    var all := actions + [a];
    assert forall i :: 0 <= i < |actions| ==> all[..i] == actions[..i] && all[i] == actions[i];
    assert all[..|actions|] == actions && all[|actions|] == a;
  }

  /** Over every run a coroutine that has got to the lock or beyond was started while the dispatcher was not suspended
      and its robot neither at work nor navigating, and was given the lock with the robot still neither. */
  lemma {:induction false} NobodySkipsACheck(limit: nat, actions: seq<Action>, c: nat)
    requires c < |Run(limit, actions).frames|
    ensures var passed := Passed(Run(limit, actions).frames[c].pc);
            (passed >= 1 ==> StartedWell(limit, actions, c)) && (passed >= 2 ==> LockedWell(limit, actions, c))
  {
    var before, a := actions[..|actions| - 1], actions[|actions| - 1];
    assert actions == before + [a];
    StepPasses(limit, Run(limit, before), a, c);
    OneActionMore(limit, before, a, c);
    if c < |Run(limit, before).frames| {
      NobodySkipsACheck(limit, before, c);
    }
  }

  /** A failure of this action's coroutine has reached the limit. */
  ghost predicate ReachesLimit(limit: nat, s: State, a: Action) {
    a.Resume? && Enabled(s, a) && s.frames[a.c].pc.FailPublishing? && s.frames[a.c].pc.failures >= limit
  }

  /** Told to suspend, or at the limit of failures, and not told to resume since. */
  ghost predicate SuspendedSince(limit: nat, actions: seq<Action>) {
    actions != []
    && var before, a := actions[..|actions| - 1], actions[|actions| - 1];
       if a.SetSuspended? then a.suspended
       else ReachesLimit(limit, Run(limit, before), a) || SuspendedSince(limit, before)
  }

  lemma StepSuspends(limit: nat, s: State, a: Action)
    ensures Step(limit, s, a).suspended <==>
              if a.SetSuspended? then a.suspended else ReachesLimit(limit, s, a) || s.suspended
  {
  }

  /** Over every run the dispatcher is suspended exactly if it was told so, or a failure reached the limit, and it was
      not told to resume since. */
  lemma {:induction false} SuspendedExactly(limit: nat, actions: seq<Action>)
    ensures Run(limit, actions).suspended <==> SuspendedSince(limit, actions)
  {
    if actions != [] {
      SuspendedExactly(limit, actions[..|actions| - 1]);
      StepSuspends(limit, Run(limit, actions[..|actions| - 1]), actions[|actions| - 1]);
    }
  }

  /** And nobody is turned away for another reason. */
  lemma TurnedAwayExactly(limit: nat, s: State, robot: RobotId, navigating: bool, c: nat)
    ensures var started := Step(limit, s, StartDispatch(robot, navigating));
            && |started.frames| == |s.frames| + 1 && started.frames[|s.frames|].robot == robot
            && (started.frames[|s.frames|].pc == Returned <==> s.suspended || robot in s.active || navigating)
    ensures c < |s.frames| && s.frames[c].pc.AwaitingLock? && s.lock == None ==>
              (Step(limit, s, AcquireLock(c, navigating)).frames[c].pc == Returned <==>
                 s.frames[c].robot in s.active || navigating)
  {
  }

  // ---------- the activation ----------

  lemma ActivationGranted(limit: nat, s: State, c: nat, k: CycleId)
    requires c < |s.frames| && s.frames[c].pc == Marking(k) && k in s.cycles
    requires s.cycles[k].status == Scheduled || s.cycles[k].status == Suspended
    ensures var marked := Step(limit, s, Commit(c));
            && marked == At(s.(cycles := s.cycles[k := s.cycles[k].(status := Active)]), c, Marked(k))
            && Step(limit, marked, Resume(c)) == BeginRoute(marked, c, k)
  {
  }

  lemma ActivationRefused(limit: nat, s: State, c: nat, k: CycleId)
    requires c < |s.frames| && s.frames[c].pc == Marking(k) && k in s.cycles
    requires s.cycles[k].status != Scheduled && s.cycles[k].status != Suspended
    ensures var refused := Step(limit, s, Commit(c));
            && refused == At(s, c, MarkRejected(k))
            && Step(limit, refused, Resume(c)) == BeginFailure(refused.(lock := None), c, k)
  {
  }

  /** A claimed cycle that is scheduled or suspended becomes active, and its route is driven with the lock left; one
      that cannot be activated is never driven: the lock is left, and it is handled as a failure. */
  lemma ActivationExactly(limit: nat, s: State, c: nat)
    requires Inv(limit, s) && c < |s.frames| && s.frames[c].pc.Marking?
    ensures var k := s.frames[c].pc.cycle;
            var was := s.cycles[k].status;
            var later := Step(limit, Step(limit, s, Commit(c)), Resume(c));
            && k in later.cycles && c < |later.frames| && later.lock == None
            && (was == Scheduled || was == Suspended ==>
                  later.frames[c].pc == Driving(k) && later.cycles[k].status == Active
                  && later.cycles[k].drives == s.cycles[k].drives + 1 && later.failures == s.failures)
            && (was != Scheduled && was != Suspended ==>
                  later.frames[c].pc == FailMarking(k, s.failures + 1) && later.cycles[k].status == was
                  && later.cycles[k].drives == s.cycles[k].drives && later.failures == s.failures + 1)
  {
    var k := s.frames[c].pc.cycle;
    assert k in s.cycles;
    if s.cycles[k].status == Scheduled || s.cycles[k].status == Suspended {
      ActivationGranted(limit, s, c, k);
    } else {
      ActivationRefused(limit, s, c, k);
    }
  }

  // ---------- changes from outside ----------

  /** A move through the queue from outside takes a cycle exactly where the machine lets it, and nothing else anywhere;
      a cycle submitted is scheduled and has not been touched. */
  lemma OutsideMovesExactly(limit: nat, s: State, k: CycleId, to: CycleStatus, u: CycleId)
    ensures u in Step(limit, s, QueueMove(k, to)).cycles <==> u in s.cycles
    ensures u in s.cycles ==>
              Step(limit, s, QueueMove(k, to)).cycles[u].status ==
                if u == k && CanTransition(s.cycles[k].status, to) then to else s.cycles[u].status
    ensures u in Step(limit, s, SubmitCycle(k)).cycles <==> u in s.cycles || u == k
    ensures var cycles := Step(limit, s, SubmitCycle(k)).cycles;
            && (u in s.cycles ==> cycles[u] == s.cycles[u])
            && (k !in s.cycles ==> cycles[k].status == Scheduled && cycles[k].claims == 0)
  {
  }

  // ---------- a cycle served to the end ----------

  lemma ReachableStep(limit: nat, s: State, a: Action)
    requires Reachable(limit, s)
    ensures Reachable(limit, Step(limit, s, a))
  {
    var actions :| Run(limit, actions) == s;
    assert (actions + [a])[..|actions|] == actions;
    assert Run(limit, actions + [a]) == Step(limit, s, a);
  }

  /** One robot with one cycle. */
  function OneRobot(r: RobotId, k: CycleId, cycle: Cycle, pc: Pc, lock: Option<nat>): State {
    State(false, 0, map[k := cycle], map[r := k], [Frame(r, pc)], lock, [])
  }

  lemma SelectedIsReachable(limit: nat, r: RobotId, k: CycleId)
    ensures Reachable(limit, State(false, 0, map[k := NEW_CYCLE], map[], [Frame(r, Selected(Some(k)))], Some(0), []))
  {
    assert Run(limit, []) == INITIAL;
    var s1 := INITIAL.(cycles := map[k := NEW_CYCLE]);
    var s2 := s1.(frames := [Frame(r, AwaitingLock)]);
    var s3 := s1.(frames := [Frame(r, Selecting)], lock := Some(0));
    assert Step(limit, INITIAL, SubmitCycle(k)) == s1;
    assert Step(limit, s1, StartDispatch(r, false)) == s2;
    assert Step(limit, s2, AcquireLock(0, false)) == s3;
    assert Step(limit, s3, QueryNext(0, Some(k))) == s3.(frames := [Frame(r, Selected(Some(k)))]);
    ReachableStep(limit, INITIAL, SubmitCycle(k));
    ReachableStep(limit, s1, StartDispatch(r, false));
    ReachableStep(limit, s2, AcquireLock(0, false));
    ReachableStep(limit, s3, QueryNext(0, Some(k)));
  }

  lemma DrivingIsReachable(limit: nat, r: RobotId, k: CycleId)
    ensures Reachable(limit, OneRobot(r, k, Cycle(Active, 1, 1, 0, 0, false), Driving(k), None))
  {
    SelectedIsReachable(limit, r, k);
    var s1 := State(false, 0, map[k := NEW_CYCLE], map[], [Frame(r, Selected(Some(k)))], Some(0), []);
    var s2 := OneRobot(r, k, NEW_CYCLE.(claims := 1), Marking(k), Some(0));
    var s3 := OneRobot(r, k, NEW_CYCLE.(claims := 1, status := Active), Marked(k), Some(0));
    assert Step(limit, s1, Resume(0)) == s2;
    assert Step(limit, s2, Commit(0)) == s3;
    assert Step(limit, s3, Resume(0)) == OneRobot(r, k, Cycle(Active, 1, 1, 0, 0, false), Driving(k), None);
    ReachableStep(limit, s1, Resume(0));
    ReachableStep(limit, s2, Commit(0));
    ReachableStep(limit, s3, Resume(0));
  }

  lemma CompletedIsReachable(limit: nat, r: RobotId, k: CycleId, total: nat)
    ensures Reachable(limit, OneRobot(r, k, Cycle(Completed, 1, 1, 0, 0, false), CompletionSaved(k), None))
  {
    DrivingIsReachable(limit, r, k);
    var driven := Cycle(Active, 1, 1, 0, 0, false);
    var s1 := OneRobot(r, k, driven, Driving(k), None);
    var s2 := OneRobot(r, k, driven, Observing(k, true, total), None);
    var s3 := OneRobot(r, k, driven, Completing(k, total, total), None);
    assert Step(limit, s1, RouteReturned(0, Success(total))) == s2;
    assert Step(limit, s2, Observed(0, total)) == s3;
    assert Step(limit, s3, Commit(0)) == OneRobot(r, k, driven.(status := Completed), CompletionSaved(k), None);
    ReachableStep(limit, s1, RouteReturned(0, Success(total)));
    ReachableStep(limit, s2, Observed(0, total));
    ReachableStep(limit, s3, Commit(0));
  }

  /** A run exists in which a cycle is claimed, driven, completed and cleared. */
  lemma CompletionIsReachable(limit: nat, r: RobotId, k: CycleId, total: nat)
    ensures exists s :: Reachable(limit, s) && k in s.cycles && s.cycles[k].status == Completed
                        && s.cycles[k].cleared == 1 && s.active == map[] && s.frames == [Frame(r, Returned)]
  {
    CompletedIsReachable(limit, r, k, total);
    var done := Cycle(Completed, 1, 1, 0, 0, false);
    var s1 := OneRobot(r, k, done, CompletionSaved(k), None);
    var s2 := OneRobot(r, k, done, Docking(k), None).(verdicts := [Good]);
    var s3 := OneRobot(r, k, done, Clearing(k), None).(verdicts := [Good]);
    assert Step(limit, s1, Resume(0)) == s2;
    assert Step(limit, s2, Resume(0)) == s3;
    ReachableStep(limit, s1, Resume(0));
    ReachableStep(limit, s2, Resume(0));
    ReachableStep(limit, s3, Resume(0));
    var end := Step(limit, s3, Resume(0));
    assert end.frames == [Frame(r, Returned)] && end.active == map[];
  }
}
