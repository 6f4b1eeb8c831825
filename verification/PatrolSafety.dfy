/** Safety of the patrol dispatcher over every interleaving. */
module PatrolSafety {
  import opened Common
  import opened PatrolRecords
  import opened PatrolModel

  predicate RecordOk(limit: nat, cycle: Cycle) {
    && cycle.claims <= 1 && cycle.drives <= cycle.claims && cycle.cleared <= cycle.claims
    && (cycle.cleared > 0 ==> Finished(cycle.status) && (cycle.failedAs >= limit ==> cycle.suspendedFor))
  }

  ghost predicate CyclesOk(limit: nat, s: State) {
    forall k :: k in s.cycles ==> RecordOk(limit, s.cycles[k])
  }

  ghost predicate ActiveOk(s: State) {
    && (forall r :: r in s.active ==> s.active[r] in s.cycles)
    && (forall r :: r in s.active ==> s.cycles[s.active[r]].claims == 1 && s.cycles[s.active[r]].cleared == 0)
    && (forall r, r' :: r in s.active && r' in s.active && s.active[r] == s.active[r'] ==> r == r')
  }

  /** A claimed cycle that is still scheduled is being marked by the holder of the dispatch lock. */
  ghost predicate ScheduledOk(s: State) {
    forall k :: k in s.cycles && s.cycles[k].claims == 1 && s.cycles[k].status.Scheduled? ==>
      && s.lock.Some? && s.lock.value < |s.frames|
      && s.frames[s.lock.value].pc.Marking? && s.frames[s.lock.value].pc.cycle == k
  }

  ghost predicate FramesOk(s: State) {
    && (forall c :: 0 <= c < |s.frames| && Claimed(s.frames[c].pc) ==>
          s.frames[c].robot in s.active && s.active[s.frames[c].robot] == s.frames[c].pc.cycle)
    && (forall c, d :: 0 <= c < d < |s.frames| && Claimed(s.frames[c].pc) && Claimed(s.frames[d].pc) ==>
          s.frames[c].robot != s.frames[d].robot)
    && (forall c :: 0 <= c < |s.frames| && HoldsLock(s.frames[c].pc) ==> s.lock == Some(c))
  }

  /** What a coroutine knows about its cycle at each suspension point. */
  predicate StageOk(limit: nat, pc: Pc, cycle: Cycle) {
    && (pc.Marking? || !cycle.status.Scheduled?)
    && (pc.Marking? || pc.Marked? || pc.MarkRejected? ==> cycle.drives == 0)
    && (match pc
        case FailMarking(_, failures) => cycle.failedAs == failures
        case FailPublishing(_, failures) => cycle.failedAs == failures && Finished(cycle.status)
        case Clearing(_) => Finished(cycle.status) && (cycle.failedAs >= limit ==> cycle.suspendedFor)
        case CompletionSaved(_) => Finished(cycle.status) && cycle.failedAs == 0
        case Docking(_) => Finished(cycle.status) && cycle.failedAs == 0
        case _ => cycle.failedAs == 0)
  }

  ghost predicate StagesOk(limit: nat, s: State) {
    && (forall c :: 0 <= c < |s.frames| && Claimed(s.frames[c].pc) && s.frames[c].pc.cycle in s.cycles ==>
          StageOk(limit, s.frames[c].pc, s.cycles[s.frames[c].pc.cycle]))
    && (forall c :: 0 <= c < |s.frames| && (s.frames[c].pc.Selecting? || s.frames[c].pc.Selected?) ==>
          s.frames[c].robot !in s.active)
    && (forall c :: 0 <= c < |s.frames| && s.frames[c].pc.Selected? && s.frames[c].pc.choice.Some? ==>
          var k := s.frames[c].pc.choice.value;
          k in s.cycles && s.cycles[k].claims == 0)
  }

  ghost predicate UnclaimedOk(s: State) {
    && (forall k :: k in s.cycles && s.cycles[k].claims == 0 ==> s.cycles[k].failedAs == 0)
    && s.failures == TrailingFailures(s.verdicts)
  }

  ghost predicate Inv(limit: nat, s: State) {
    && CyclesOk(limit, s) && ActiveOk(s) && ScheduledOk(s) && FramesOk(s) && StagesOk(limit, s) && UnclaimedOk(s)
  }

  /** Two claiming coroutines work on different cycles. */
  lemma CyclesDiffer(limit: nat, s: State, c: nat, d: nat)
    requires Inv(limit, s) && c < |s.frames| && d < |s.frames| && c != d
    requires Claimed(s.frames[c].pc) && Claimed(s.frames[d].pc)
    ensures s.frames[c].pc.cycle != s.frames[d].pc.cycle
  {
    var a, b := if c < d then c else d, if c < d then d else c;
    assert s.frames[a].robot != s.frames[b].robot;
  }

  /** A coroutine moves on together with a change of its cycle's record. */
  lemma AdvanceKeepsRecords(limit: nat, s: State, c: nat, pc: Pc, cycle: Cycle)
    requires Inv(limit, s) && c < |s.frames| && Claimed(s.frames[c].pc) && Claimed(pc)
    requires pc.cycle == s.frames[c].pc.cycle && pc.cycle in s.cycles && (HoldsLock(pc) <==> HoldsLock(s.frames[c].pc))
    requires RecordOk(limit, cycle) && cycle.claims == 1 && cycle.cleared == 0
    requires StageOk(limit, pc, cycle) && !pc.Marking?
    ensures var s' := At(WithCycle(s, pc.cycle, cycle), c, pc);
            CyclesOk(limit, s') && ActiveOk(s') && ScheduledOk(s') && UnclaimedOk(s')
  {
  }

  lemma AdvanceKeeps(limit: nat, s: State, c: nat, pc: Pc, cycle: Cycle)
    requires Inv(limit, s) && c < |s.frames| && Claimed(s.frames[c].pc) && Claimed(pc)
    requires pc.cycle == s.frames[c].pc.cycle && pc.cycle in s.cycles && (HoldsLock(pc) <==> HoldsLock(s.frames[c].pc))
    requires RecordOk(limit, cycle) && cycle.claims == 1 && cycle.cleared == 0
    requires StageOk(limit, pc, cycle) && !pc.Marking?
    ensures Inv(limit, At(WithCycle(s, pc.cycle, cycle), c, pc))
  {
    AdvanceKeepsRecords(limit, s, c, pc, cycle);
    forall d | 0 <= d < |s.frames| && d != c && Claimed(s.frames[d].pc) ensures s.frames[d].pc.cycle != pc.cycle {
      CyclesDiffer(limit, s, c, d);
    }
  }

  /** A coroutine moves on while its cycle's record stays as it is. */
  lemma MoveKeeps(limit: nat, s: State, c: nat, pc: Pc)
    requires Inv(limit, s) && c < |s.frames| && Claimed(s.frames[c].pc) && Claimed(pc)
    requires pc.cycle == s.frames[c].pc.cycle && pc.cycle in s.cycles && (HoldsLock(pc) <==> HoldsLock(s.frames[c].pc))
    requires StageOk(limit, pc, s.cycles[pc.cycle]) && !pc.Marking?
    ensures Inv(limit, At(s, c, pc))
  {
    AdvanceKeeps(limit, s, c, pc, s.cycles[pc.cycle]);
    assert s.cycles[pc.cycle := s.cycles[pc.cycle]] == s.cycles;
  }

  /** Leaving the dispatch lock. */
  lemma UnlockKeeps(limit: nat, s: State, c: nat, pc: Pc)
    requires Inv(limit, s) && c < |s.frames| && HoldsLock(s.frames[c].pc) && !s.frames[c].pc.Marking? && !HoldsLock(pc)
    requires Claimed(pc) <==> Claimed(s.frames[c].pc)
    requires Claimed(pc) ==> pc.cycle == s.frames[c].pc.cycle
    requires Claimed(pc) ==> pc.cycle in s.cycles && StageOk(limit, pc, s.cycles[pc.cycle])
    ensures Inv(limit, At(s, c, pc).(lock := None))
  {
  }

  lemma CounterKeeps(limit: nat, s: State, v: Verdict)
    requires Inv(limit, s)
    ensures Inv(limit, s.(failures := if v.Good? then 0 else s.failures + 1, verdicts := s.verdicts + [v]))
  {
    assert (s.verdicts + [v])[..|s.verdicts + [v]| - 1] == s.verdicts;
  }

  lemma BeginFailureKeeps(limit: nat, s: State, c: nat, k: CycleId)
    requires Inv(limit, s) && c < |s.frames| && k in s.cycles
    requires s.frames[c].pc == Raised(k) || s.frames[c].pc == Driving(k)
             || (s.frames[c].pc.Observing? && s.frames[c].pc.cycle == k)
    ensures Inv(limit, BeginFailure(s, c, k))
  {
    var cycle := s.cycles[k].(failedAs := s.failures + 1);
    var failing := At(WithCycle(s, k, cycle), c, FailMarking(k, s.failures + 1));
    assert BeginFailure(s, c, k) == failing.(failures := s.failures + 1, verdicts := s.verdicts + [Bad]);
    DrivenCycleIsKnown(limit, s, c, k);
    AdvanceKeeps(limit, s, c, FailMarking(k, s.failures + 1), cycle);
    CounterKeeps(limit, failing, Bad);
  }

  /** The record of a cycle whose coroutine is past the dispatch lock and has not failed it. */
  lemma DrivenCycleIsKnown(limit: nat, s: State, c: nat, k: CycleId)
    requires Inv(limit, s) && c < |s.frames| && k in s.cycles
    requires s.frames[c].pc == Raised(k) || s.frames[c].pc == Driving(k)
             || (s.frames[c].pc.Observing? && s.frames[c].pc.cycle == k)
    ensures RecordOk(limit, s.cycles[k]) && s.cycles[k].claims == 1 && s.cycles[k].cleared == 0
    ensures !s.cycles[k].status.Scheduled?
  {
  }

  lemma MarkingKeeps(limit: nat, s: State, c: nat)
    requires Inv(limit, s) && Enabled(s, Commit(c)) && s.frames[c].pc.Marking?
    ensures Inv(limit, CommitTurn(s, c))
  {
    var k := s.frames[c].pc.cycle;
    if CanTransition(s.cycles[k].status, CycleStatus.Active) {
      AdvanceKeeps(limit, s, c, Marked(k), s.cycles[k].(status := CycleStatus.Active));
    } else {
      MoveKeeps(limit, s, c, MarkRejected(k));
    }
  }

  lemma CompletingKeeps(limit: nat, s: State, c: nat)
    requires Inv(limit, s) && Enabled(s, Commit(c)) && s.frames[c].pc.Completing?
    ensures Inv(limit, CommitTurn(s, c))
  {
    var k := s.frames[c].pc.cycle;
    if CanTransition(s.cycles[k].status, CycleStatus.Completed)
        && CountsOk(s.frames[c].pc.total, s.frames[c].pc.observed) {
      AdvanceKeeps(limit, s, c, CompletionSaved(k), s.cycles[k].(status := CycleStatus.Completed));
    } else {
      MoveKeeps(limit, s, c, Raised(k));
    }
  }

  lemma FailMarkingKeeps(limit: nat, s: State, c: nat)
    requires Inv(limit, s) && Enabled(s, Commit(c)) && s.frames[c].pc.FailMarking?
    ensures Inv(limit, CommitTurn(s, c))
  {
    var k, failures := s.frames[c].pc.cycle, s.frames[c].pc.failures;
    if CanTransition(s.cycles[k].status, CycleStatus.Failed) {
      AdvanceKeeps(limit, s, c, FailPublishing(k, failures), s.cycles[k].(status := CycleStatus.Failed));
    } else {
      MoveKeeps(limit, s, c, FailPublishing(k, failures));
    }
  }

  lemma ClaimKeepsRecords(limit: nat, s: State, c: nat, k: CycleId)
    requires Inv(limit, s) && c < |s.frames| && s.frames[c].pc == Selected(Some(k)) && k in s.cycles
    ensures var s' := Claim(s, c, k); CyclesOk(limit, s') && ActiveOk(s') && ScheduledOk(s') && UnclaimedOk(s')
  {
  }

  lemma ClaimKeepsFrames(limit: nat, s: State, c: nat, k: CycleId)
    requires Inv(limit, s) && c < |s.frames| && s.frames[c].pc == Selected(Some(k)) && k in s.cycles
    ensures FramesOk(Claim(s, c, k)) && StagesOk(limit, Claim(s, c, k))
  {
  }

  lemma ClearKeepsRecords(limit: nat, s: State, c: nat, k: CycleId)
    requires Inv(limit, s) && c < |s.frames| && s.frames[c].pc == Clearing(k) && k in s.cycles
    ensures var s' := Clear(s, c, k); CyclesOk(limit, s') && ActiveOk(s') && ScheduledOk(s') && UnclaimedOk(s')
  {
  }

  lemma ClearKeepsFrames(limit: nat, s: State, c: nat, k: CycleId)
    requires Inv(limit, s) && c < |s.frames| && s.frames[c].pc == Clearing(k) && k in s.cycles
    ensures FramesOk(Clear(s, c, k)) && StagesOk(limit, Clear(s, c, k))
  {
    forall d | 0 <= d < |s.frames| && d != c && Claimed(s.frames[d].pc) ensures s.frames[d].pc.cycle != k {
      CyclesDiffer(limit, s, c, d);
    }
  }

  lemma BeginRouteKeeps(limit: nat, s: State, c: nat, k: CycleId)
    requires Inv(limit, s) && c < |s.frames| && s.frames[c].pc == Marked(k) && k in s.cycles
    ensures Inv(limit, BeginRoute(s, c, k))
  {
    var driving := At(s, c, Driving(k)).(lock := None);
    var cycle := s.cycles[k].(drives := s.cycles[k].drives + 1);
    assert BeginRoute(s, c, k) == At(WithCycle(driving, k, cycle), c, Driving(k));
    MarkedMayDrive(limit, s, c, k);
    AdvanceKeeps(limit, driving, c, Driving(k), cycle);
  }

  lemma MarkedMayDrive(limit: nat, s: State, c: nat, k: CycleId)
    requires Inv(limit, s) && c < |s.frames| && s.frames[c].pc == Marked(k) && k in s.cycles
    ensures Inv(limit, At(s, c, Driving(k)).(lock := None))
    ensures s.cycles[k].claims == 1 && s.cycles[k].cleared == 0 && s.cycles[k].drives == 0
    ensures StageOk(limit, Driving(k), s.cycles[k])
  {
    UnlockKeeps(limit, s, c, Driving(k));
  }

  lemma EndFailureKeeps(limit: nat, s: State, c: nat)
    requires Inv(limit, s) && Enabled(s, Resume(c)) && s.frames[c].pc.FailPublishing?
    ensures Inv(limit, Continue(limit, s, c))
  {
    var k := s.frames[c].pc.cycle;
    if s.frames[c].pc.failures >= limit {
      var cycle := s.cycles[k].(suspendedFor := true);
      AdvanceKeeps(limit, s, c, Clearing(k), cycle);
      SuspendKeeps(limit, At(WithCycle(s, k, cycle), c, Clearing(k)), true);
    } else {
      MoveKeeps(limit, s, c, Clearing(k));
    }
  }

  lemma RejectedMayRaise(limit: nat, s: State, c: nat, k: CycleId)
    requires Inv(limit, s) && c < |s.frames| && s.frames[c].pc == MarkRejected(k) && k in s.cycles
    ensures Inv(limit, At(s, c, Raised(k)).(lock := None))
  {
    UnlockKeeps(limit, s, c, Raised(k));
  }

  lemma MarkRejectedKeeps(limit: nat, s: State, c: nat, k: CycleId)
    requires Inv(limit, s) && c < |s.frames| && s.frames[c].pc == MarkRejected(k) && k in s.cycles
    ensures Inv(limit, BeginFailure(s.(lock := None), c, k))
  {
    var raised := At(s, c, Raised(k)).(lock := None);
    assert BeginFailure(s.(lock := None), c, k) == BeginFailure(raised, c, k);
    RejectedMayRaise(limit, s, c, k);
    BeginFailureKeeps(limit, raised, c, k);
  }

  lemma CompletedKeeps(limit: nat, s: State, c: nat, k: CycleId)
    requires Inv(limit, s) && c < |s.frames| && s.frames[c].pc == CompletionSaved(k) && k in s.cycles
    ensures Inv(limit, At(s, c, Docking(k)).(failures := 0, verdicts := s.verdicts + [Good]))
  {
    MoveKeeps(limit, s, c, Docking(k));
    CounterKeeps(limit, At(s, c, Docking(k)), Good);
  }

  lemma ContinueKeeps(limit: nat, s: State, c: nat)
    requires limit > 0 && Inv(limit, s) && Enabled(s, Resume(c))
    ensures Inv(limit, Continue(limit, s, c))
  {
    match s.frames[c].pc
    case Selected(choice) =>
      if choice.Some? {
        ClaimKeepsRecords(limit, s, c, choice.value);
        ClaimKeepsFrames(limit, s, c, choice.value);
      } else {
        UnlockKeeps(limit, s, c, Returned);
      }
    case Marked(k) => BeginRouteKeeps(limit, s, c, k);
    case MarkRejected(k) => MarkRejectedKeeps(limit, s, c, k);
    case CompletionSaved(k) => CompletedKeeps(limit, s, c, k);
    case Docking(k) => MoveKeeps(limit, s, c, Clearing(k));
    case Raised(k) => BeginFailureKeeps(limit, s, c, k);
    case FailPublishing(k, failures) => EndFailureKeeps(limit, s, c);
    case Clearing(k) =>
      ClearKeepsRecords(limit, s, c, k);
      ClearKeepsFrames(limit, s, c, k);
  }

  lemma SuspendKeeps(limit: nat, s: State, b: bool)
    ensures Inv(limit, s) ==> Inv(limit, s.(suspended := b))
  {
  }

  lemma StartKeepsFrames(limit: nat, s: State, f: Frame)
    requires Inv(limit, s) && (f.pc.AwaitingLock? || f.pc.Returned?)
    ensures FramesOk(s.(frames := s.frames + [f])) && StagesOk(limit, s.(frames := s.frames + [f]))
  {
  }

  lemma StartKeeps(limit: nat, s: State, f: Frame)
    requires Inv(limit, s) && (f.pc.AwaitingLock? || f.pc.Returned?)
    ensures Inv(limit, s.(frames := s.frames + [f]))
  {
    StartKeepsFrames(limit, s, f);
  }

  lemma GiveUpKeeps(limit: nat, s: State, c: nat)
    requires Inv(limit, s) && c < |s.frames| && s.frames[c].pc.AwaitingLock?
    ensures Inv(limit, At(s, c, Returned))
  {
  }

  lemma AcquireKeeps(limit: nat, s: State, c: nat)
    requires Inv(limit, s) && c < |s.frames| && s.frames[c].pc.AwaitingLock? && s.lock == None
    requires s.frames[c].robot !in s.active
    ensures Inv(limit, At(s, c, Selecting).(lock := Some(c)))
  {
  }

  lemma SelectKeeps(limit: nat, s: State, c: nat, choice: Option<CycleId>)
    requires Inv(limit, s) && Enabled(s, QueryNext(c, choice))
    ensures Inv(limit, At(s, c, Selected(choice)))
  {
  }

  lemma QueueMoveKeepsRecords(limit: nat, s: State, k: CycleId, to: CycleStatus)
    requires Inv(limit, s) && Enabled(s, QueueMove(k, to))
    ensures var s' := WithCycle(s, k, s.cycles[k].(status := to));
            CyclesOk(limit, s') && ActiveOk(s') && ScheduledOk(s') && UnclaimedOk(s')
  {
  }

  lemma QueueMoveKeepsFrames(limit: nat, s: State, k: CycleId, to: CycleStatus)
    requires Inv(limit, s) && Enabled(s, QueueMove(k, to))
    ensures var s' := WithCycle(s, k, s.cycles[k].(status := to)); FramesOk(s') && StagesOk(limit, s')
  {
  }

  lemma SubmitKeeps(limit: nat, s: State, k: CycleId)
    requires Inv(limit, s) && k !in s.cycles
    ensures Inv(limit, WithCycle(s, k, NEW_CYCLE))
  {
  }

  lemma RouteKeeps(limit: nat, s: State, a: Action)
    requires Inv(limit, s) && Enabled(s, a) && (a.RouteReturned? || a.Observed?)
    ensures Inv(limit, Effect(limit, s, a))
  {
    var c := a.c;
    var k := s.frames[c].pc.cycle;
    if a.RouteReturned? {
      match a.result {
        case Success(total) => MoveKeeps(limit, s, c, Observing(k, true, total));
        case NotSuccessful => MoveKeeps(limit, s, c, Observing(k, false, 0));
        case RouteRaised => BeginFailureKeeps(limit, s, c, k);
      }
    } else if s.frames[c].pc.success {
      MoveKeeps(limit, s, c, Completing(k, s.frames[c].pc.total, a.observed));
    } else {
      BeginFailureKeeps(limit, s, c, k);
    }
  }

  lemma StepKeeps(limit: nat, s: State, a: Action)
    requires limit > 0 && Inv(limit, s)
    ensures Inv(limit, Step(limit, s, a))
  {
    if Enabled(s, a) {
      match a
      case StartDispatch(robot, navigating) =>
        StartKeeps(limit, s,
                   Frame(robot, if s.suspended || robot in s.active || navigating then Returned else AwaitingLock));
      case AcquireLock(c, navigating) =>
        if s.frames[c].robot in s.active || navigating {
          GiveUpKeeps(limit, s, c);
        } else {
          AcquireKeeps(limit, s, c);
        }
      case QueryNext(c, choice) => SelectKeeps(limit, s, c, choice);
      case Commit(c) =>
        if s.frames[c].pc.Marking? {
          MarkingKeeps(limit, s, c);
        } else if s.frames[c].pc.Completing? {
          CompletingKeeps(limit, s, c);
        } else {
          FailMarkingKeeps(limit, s, c);
        }
      case Resume(c) => ContinueKeeps(limit, s, c);
      case SubmitCycle(k) => SubmitKeeps(limit, s, k);
      case QueueMove(k, to) =>
        QueueMoveKeepsRecords(limit, s, k, to);
        QueueMoveKeepsFrames(limit, s, k, to);
      case SetSuspended(b) => SuspendKeeps(limit, s, b);
      case _ => RouteKeeps(limit, s, a);
    }
  }

  lemma {:induction false} RunKeeps(limit: nat, actions: seq<Action>)
    requires limit > 0
    ensures Inv(limit, Run(limit, actions))
  {
    if actions != [] {
      RunKeeps(limit, actions[..|actions| - 1]);
      StepKeeps(limit, Run(limit, actions[..|actions| - 1]), actions[|actions| - 1]);
    }
  }

  lemma ReachableKeeps(limit: nat, s: State)
    requires limit > 0 && Reachable(limit, s)
    ensures Inv(limit, s)
  {
    var actions :| Run(limit, actions) == s;
    RunKeeps(limit, actions);
  }

  /** Over every interleaving each cycle is held by at most one robot and by at most one coroutine, and is claimed,
      driven and cleared at most once. */
  lemma PatrolIsExclusive(limit: nat, s: State)
    requires limit > 0 && Reachable(limit, s)
    ensures forall r, r' :: r in s.active && r' in s.active && s.active[r] == s.active[r'] ==> r == r'
    ensures forall c, d :: 0 <= c < d < |s.frames| && Claimed(s.frames[c].pc) && Claimed(s.frames[d].pc) ==>
              s.frames[c].robot != s.frames[d].robot && s.frames[c].pc.cycle != s.frames[d].pc.cycle
    ensures forall k :: k in s.cycles ==>
              s.cycles[k].drives <= s.cycles[k].claims <= 1 && s.cycles[k].cleared <= s.cycles[k].claims
  {
    ReachableKeeps(limit, s);
    forall c, d | 0 <= c < d < |s.frames| && Claimed(s.frames[c].pc) && Claimed(s.frames[d].pc)
      ensures s.frames[c].robot != s.frames[d].robot && s.frames[c].pc.cycle != s.frames[d].pc.cycle
    {
      CyclesDiffer(limit, s, c, d);
    }
  }

  /** When a robot's entry has been cleared its cycle is completed or failed, on every path; and if its failure
      brought the consecutive failures to the limit, the dispatcher was suspended for it before the clearing. */
  lemma ClearedCyclesAreFinished(limit: nat, s: State, k: CycleId)
    requires limit > 0 && Reachable(limit, s) && k in s.cycles && s.cycles[k].cleared > 0
    ensures Finished(s.cycles[k].status) && (s.cycles[k].failedAs >= limit ==> s.cycles[k].suspendedFor)
  {
    ReachableKeeps(limit, s);
  }

  /** The counter is the number of failures since the last success, and the failure that reaches the limit ends by
      suspending the dispatcher. */
  lemma FailureLimitSuspends(limit: nat, s: State, c: nat)
    requires limit > 0 && Reachable(limit, s)
    ensures s.failures == TrailingFailures(s.verdicts)
    ensures c < |s.frames| && s.frames[c].pc.FailPublishing? && s.frames[c].pc.cycle in s.cycles ==>
              && Finished(s.cycles[s.frames[c].pc.cycle].status)
              && s.frames[c].pc.failures == s.cycles[s.frames[c].pc.cycle].failedAs
              && (s.frames[c].pc.failures >= limit ==> Step(limit, s, Resume(c)).suspended)
  {
    ReachableKeeps(limit, s);
  }
}
