/** The patrol dispatcher object: its fields, and its code cut at the suspension points. */
module PatrolDispatchers {
  import opened Common
  import opened PatrolRecords
  import opened PatrolModel
  import opened PatrolSafety

  class PatrolDispatcher {
    const maxConsecutiveFailures: nat
    var suspended: bool
    var consecutiveFailures: nat
    var activeCycles: map<RobotId, CycleId>
    var dispatchLock: Option<nat>
    // The status column of the stored cycles.
    var cycles: map<CycleId, Cycle>
    // The suspended coroutines.
    var frames: seq<Frame>
    // The successes and failures so far.
    var verdicts: seq<Verdict>

    ghost function View(): State
      reads this
    {
      State(suspended, consecutiveFailures, cycles, activeCycles, frames, dispatchLock, verdicts)
    }

    /** The invariant of the machine. */
    ghost predicate Valid()
      reads this
    {
      maxConsecutiveFailures > 0 && Inv(maxConsecutiveFailures, View())
    }

    constructor (limit: nat)
      requires limit > 0
      ensures Valid() && View() == INITIAL && maxConsecutiveFailures == limit
    {
      maxConsecutiveFailures := limit;
      suspended, consecutiveFailures, activeCycles := false, 0, map[];
      dispatchLock, cycles, frames, verdicts := None, map[], [], [];
    }

    method SetPc(c: nat, pc: Pc)
      requires c < |frames|
      modifies this`frames
      ensures View() == At(old(View()), c, pc)
    {
      frames := frames[c := frames[c].(pc := pc)];
    }

    method StartDispatch(robot: RobotId, navigating: bool) returns (c: nat)
      requires Valid()
      modifies this`frames
      ensures Valid() && View() == Step(maxConsecutiveFailures, old(View()), Action.StartDispatch(robot, navigating))
      ensures c == |old(frames)| && |frames| == c + 1 && frames[c].robot == robot
    {
      StepKeeps(maxConsecutiveFailures, View(), Action.StartDispatch(robot, navigating));
      c := |frames|;
      if suspended || robot in activeCycles || navigating {
        frames := frames + [Frame(robot, Returned)];
      } else {
        frames := frames + [Frame(robot, AwaitingLock)];
      }
    }

    method AcquireDispatchLock(c: nat, navigating: bool)
      requires Valid() && Enabled(View(), AcquireLock(c, navigating))
      modifies this`frames, this`dispatchLock
      ensures Valid() && View() == Step(maxConsecutiveFailures, old(View()), AcquireLock(c, navigating))
    {
      StepKeeps(maxConsecutiveFailures, View(), AcquireLock(c, navigating));
      if frames[c].robot in activeCycles || navigating {
        SetPc(c, Returned);
      } else {
        dispatchLock := Some(c);
        SetPc(c, Selecting);
      }
    }

    /** After get_next_cycle: set the active state and ask to mark the cycle active, or leave the lock. */
    method ClaimSelected(c: nat)
      requires Valid() && Enabled(View(), Resume(c)) && frames[c].pc.Selected?
      modifies this
      ensures Valid() && View() == Step(maxConsecutiveFailures, old(View()), Resume(c))
    {
      StepKeeps(maxConsecutiveFailures, View(), Resume(c));
      match frames[c].pc.choice {
        case None =>
          dispatchLock := None;
          SetPc(c, Returned);
        case Some(k) =>
          SetActiveCycleState(c, k);
      }
    }

    method SetActiveCycleState(c: nat, k: CycleId)
      requires c < |frames| && k in cycles
      modifies this`activeCycles, this`cycles, this`frames
      ensures View() == Claim(old(View()), c, k)
    {
      activeCycles := activeCycles[frames[c].robot := k];
      cycles := cycles[k := cycles[k].(claims := cycles[k].claims + 1)];
      SetPc(c, Marking(k));
    }

    method ExecuteRoute(c: nat)
      requires Valid() && Enabled(View(), Resume(c)) && frames[c].pc.Marked?
      modifies this
      ensures Valid() && View() == Step(maxConsecutiveFailures, old(View()), Resume(c))
    {
      StepKeeps(maxConsecutiveFailures, View(), Resume(c));
      LeaveLockAndDrive(c, frames[c].pc.cycle);
    }

    method LeaveLockAndDrive(c: nat, k: CycleId)
      requires c < |frames| && k in cycles
      modifies this`dispatchLock, this`cycles, this`frames
      ensures View() == BeginRoute(old(View()), c, k)
    {
      dispatchLock := None;
      cycles := cycles[k := cycles[k].(drives := cycles[k].drives + 1)];
      SetPc(c, Driving(k));
    }

    /** The queue's turn for mark_active, mark_completed or mark_failed. */
    method TransitionCycle(c: nat)
      requires Valid() && Enabled(View(), Commit(c))
      modifies this`frames, this`cycles
      ensures Valid() && View() == Step(maxConsecutiveFailures, old(View()), Commit(c))
    {
      StepKeeps(maxConsecutiveFailures, View(), Commit(c));
      var pc := frames[c].pc;
      var k := pc.cycle;
      var target := if pc.Marking? then CycleStatus.Active
                    else if pc.Completing? then CycleStatus.Completed else CycleStatus.Failed;
      var granted := CanTransition(cycles[k].status, target) && (pc.Completing? ==> CountsOk(pc.total, pc.observed));
      if granted {
        cycles := cycles[k := cycles[k].(status := target)];
      }
      match pc {
        case Marking(_) => SetPc(c, if granted then Marked(k) else MarkRejected(k));
        case Completing(_, _, _) => SetPc(c, if granted then CompletionSaved(k) else Raised(k));
        case FailMarking(_, failures) => SetPc(c, FailPublishing(k, failures));
      }
    }

    /** The start of _handle_cycle_failure. */
    method CountFailure(c: nat)
      requires c < |frames| && Claimed(frames[c].pc) && frames[c].pc.cycle in cycles
      modifies this
      ensures View() == BeginFailure(old(View()), c, old(frames[c].pc.cycle))
    {
      var k := frames[c].pc.cycle;
      var failures := consecutiveFailures + 1;
      consecutiveFailures, verdicts := failures, verdicts + [Bad];
      cycles := cycles[k := cycles[k].(failedAs := failures)];
      SetPc(c, FailMarking(k, failures));
    }

    /** The except clause, reached from inside the dispatch lock or after it. */
    method HandleException(c: nat)
      requires Valid() && Enabled(View(), Resume(c)) && (frames[c].pc.MarkRejected? || frames[c].pc.Raised?)
      modifies this
      ensures Valid() && View() == Step(maxConsecutiveFailures, old(View()), Resume(c))
    {
      StepKeeps(maxConsecutiveFailures, View(), Resume(c));
      if frames[c].pc.MarkRejected? {
        dispatchLock := None;
      }
      CountFailure(c);
    }

    /** The route has been driven and the waypoint events processed. */
    method InterpretResult(c: nat, observed: nat)
      requires Valid() && Enabled(View(), Observed(c, observed))
      modifies this
      ensures Valid() && View() == Step(maxConsecutiveFailures, old(View()), Observed(c, observed))
    {
      StepKeeps(maxConsecutiveFailures, View(), Observed(c, observed));
      var pc := frames[c].pc;
      if pc.success {
        SetPc(c, Completing(pc.cycle, pc.total, observed));
      } else {
        CountFailure(c);
      }
    }

    method FinishSuccess(c: nat)
      requires Valid() && Enabled(View(), Resume(c)) && frames[c].pc.CompletionSaved?
      modifies this
      ensures Valid() && View() == Step(maxConsecutiveFailures, old(View()), Resume(c))
    {
      StepKeeps(maxConsecutiveFailures, View(), Resume(c));
      consecutiveFailures, verdicts := 0, verdicts + [Good];
      SetPc(c, Docking(frames[c].pc.cycle));
    }

    /** The end of _handle_cycle_failure. */
    method SuspendAtLimit(c: nat)
      requires Valid() && Enabled(View(), Resume(c)) && frames[c].pc.FailPublishing?
      modifies this
      ensures Valid() && View() == Step(maxConsecutiveFailures, old(View()), Resume(c))
    {
      StepKeeps(maxConsecutiveFailures, View(), Resume(c));
      var k := frames[c].pc.cycle;
      if frames[c].pc.failures >= maxConsecutiveFailures {
        suspended := true;
        cycles := cycles[k := cycles[k].(suspendedFor := true)];
      }
      SetPc(c, Clearing(k));
    }

    /** The finally clause. */
    method ClearActiveCycleState(c: nat)
      requires Valid() && Enabled(View(), Resume(c)) && frames[c].pc.Clearing?
      modifies this
      ensures Valid() && View() == Step(maxConsecutiveFailures, old(View()), Resume(c))
    {
      StepKeeps(maxConsecutiveFailures, View(), Resume(c));
      DropActiveCycle(c, frames[c].pc.cycle);
    }

    method DropActiveCycle(c: nat, k: CycleId)
      requires c < |frames| && k in cycles
      modifies this`activeCycles, this`cycles, this`frames
      ensures View() == Clear(old(View()), c, k)
    {
      activeCycles := activeCycles - {frames[c].robot};
      cycles := cycles[k := cycles[k].(cleared := cycles[k].cleared + 1)];
      SetPc(c, Returned);
    }

    /** What the object thereby guarantees: no two robots have the same active cycle, and every cleared cycle is
        completed or failed. */
    lemma ActiveCyclesAreExclusive()
      requires Valid()
      ensures forall r, s :: r in activeCycles && s in activeCycles && activeCycles[r] == activeCycles[s] ==> r == s
      ensures forall k :: k in cycles && cycles[k].cleared > 0 ==> Finished(cycles[k].status)
    {
    }
  }
}
