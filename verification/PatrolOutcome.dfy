/** What a driven route makes of its patrol cycle. */
module PatrolOutcomes {
  import opened Common
  import opened PatrolRecords
  import opened PatrolModel
  import opened PatrolSafety

  /** The next action of a coroutine on its way from the route to the clearing of its robot. */
  function OwnAction(s: State, c: nat, observed: nat): Action
    requires c < |s.frames|
  {
    var pc := s.frames[c].pc;
    if pc.Observing? then Observed(c, observed) else if IsCommit(pc) then Commit(c) else Resume(c)
  }

  /** The coroutine's own turns, up to the clearing and at most so many. */
  ghost function OwnTurns(limit: nat, s: State, c: nat, observed: nat, n: nat): State
    decreases n
  {
    if n == 0 || c >= |s.frames| || s.frames[c].pc.Clearing? then s
    else OwnTurns(limit, Step(limit, s, OwnAction(s, c, observed)), c, observed, n - 1)
  }

  /** The coroutine is at this point with a cycle of this status. */
  predicate Stands(s: State, c: nat, k: CycleId, pc: Pc, status: CycleStatus) {
    c < |s.frames| && s.frames[c].pc == pc && k in s.cycles && s.cycles[k].status == status
  }

  /** About to clear the robot, with the cycle in this status, this many failures counted, and suspended or not. */
  predicate EndsWith(s: State, c: nat, k: CycleId, status: CycleStatus, failures: nat, suspended: bool) {
    Stands(s, c, k, Clearing(k), status) && s.failures == failures && s.suspended == suspended
  }

  /** A cycle that cannot be failed is finished already or was never begun. */
  function FailedFrom(status: CycleStatus): CycleStatus {
    if Finished(status) then status else Failed
  }

  lemma LimitTurn(limit: nat, s: State, c: nat, k: CycleId, status: CycleStatus, failures: nat, observed: nat, n: nat)
    requires Stands(s, c, k, FailPublishing(k, failures), status) && n >= 1
    ensures EndsWith(OwnTurns(limit, s, c, observed, n), c, k, status, s.failures, s.suspended || failures >= limit)
  {
    assert EndsWith(Step(limit, s, Resume(c)), c, k, status, s.failures, s.suspended || failures >= limit);
  }

  lemma FailTurns(limit: nat, s: State, c: nat, k: CycleId, status: CycleStatus, failures: nat, observed: nat, n: nat)
    requires Stands(s, c, k, FailMarking(k, failures), status) && status != Scheduled && n >= 2
    ensures EndsWith(OwnTurns(limit, s, c, observed, n), c, k, FailedFrom(status), s.failures,
                     s.suspended || failures >= limit)
  {
    LimitTurn(limit, Step(limit, s, Commit(c)), c, k, FailedFrom(status), failures, observed, n - 1);
  }

  lemma RaisedTurns(limit: nat, s: State, c: nat, k: CycleId, status: CycleStatus, observed: nat, n: nat)
    requires Stands(s, c, k, Raised(k), status) && status != Scheduled && n >= 3
    ensures EndsWith(OwnTurns(limit, s, c, observed, n), c, k, FailedFrom(status), s.failures + 1,
                     s.suspended || s.failures + 1 >= limit)
  {
    FailTurns(limit, Step(limit, s, Resume(c)), c, k, status, s.failures + 1, observed, n - 1);
  }

  lemma SavedTurns(limit: nat, s: State, c: nat, k: CycleId, observed: nat, n: nat)
    requires Stands(s, c, k, CompletionSaved(k), Completed) && n >= 2
    ensures EndsWith(OwnTurns(limit, s, c, observed, n), c, k, Completed, 0, s.suspended)
  {
    var docking := Step(limit, s, Resume(c));
    assert Stands(docking, c, k, Docking(k), Completed);
    DockingTurn(limit, docking, c, k, observed, n - 1);
  }

  lemma DockingTurn(limit: nat, s: State, c: nat, k: CycleId, observed: nat, n: nat)
    requires Stands(s, c, k, Docking(k), Completed) && n >= 1
    ensures EndsWith(OwnTurns(limit, s, c, observed, n), c, k, Completed, s.failures, s.suspended)
  {
    assert EndsWith(Step(limit, s, Resume(c)), c, k, Completed, s.failures, s.suspended);
  }

  /** The numbers that a completion may carry. */
  predicate Admissible(total: nat, observed: nat) {
    total == 0 || observed <= total
  }

  lemma CompletingTurns(limit: nat, s: State, c: nat, k: CycleId, status: CycleStatus, total: nat, observed: nat,
                        n: nat)
    requires Stands(s, c, k, Completing(k, total, observed), status) && status != Scheduled && n >= 4
    ensures var end := OwnTurns(limit, s, c, observed, n);
            if status == Active && Admissible(total, observed) then EndsWith(end, c, k, Completed, 0, s.suspended)
            else EndsWith(end, c, k, FailedFrom(status), s.failures + 1, s.suspended || s.failures + 1 >= limit)
  {
    var next := Step(limit, s, Commit(c));
    if status == Active && Admissible(total, observed) {
      SavedTurns(limit, next, c, k, observed, n - 1);
    } else {
      RaisedTurns(limit, next, c, k, status, observed, n - 1);
    }
  }

  lemma SuccessTurns(limit: nat, s: State, c: nat, k: CycleId, status: CycleStatus, total: nat, observed: nat, n: nat)
    requires Stands(s, c, k, Driving(k), status) && status != Scheduled && n >= 5
    ensures var end := OwnTurns(limit, Step(limit, s, RouteReturned(c, Success(total))), c, observed, n);
            if status == Active && Admissible(total, observed) then EndsWith(end, c, k, Completed, 0, s.suspended)
            else EndsWith(end, c, k, FailedFrom(status), s.failures + 1, s.suspended || s.failures + 1 >= limit)
  {
    var observing := Step(limit, s, RouteReturned(c, Success(total)));
    var completing := Step(limit, observing, Observed(c, observed));
    assert Stands(completing, c, k, Completing(k, total, observed), status);
    CompletingTurns(limit, completing, c, k, status, total, observed, n - 1);
  }

  lemma FailureTurns(limit: nat, s: State, c: nat, k: CycleId, status: CycleStatus, observed: nat, n: nat)
    requires Stands(s, c, k, Driving(k), status) && status != Scheduled && n >= 5
    ensures var end := OwnTurns(limit, Step(limit, s, RouteReturned(c, NotSuccessful)), c, observed, n);
            EndsWith(end, c, k, FailedFrom(status), s.failures + 1, s.suspended || s.failures + 1 >= limit)
  {
    var observing := Step(limit, s, RouteReturned(c, NotSuccessful));
    FailTurns(limit, Step(limit, observing, Observed(c, observed)), c, k, status, s.failures + 1, observed, n - 1);
  }

  lemma ExceptionTurns(limit: nat, s: State, c: nat, k: CycleId, status: CycleStatus, observed: nat, n: nat)
    requires Stands(s, c, k, Driving(k), status) && status != Scheduled && n >= 5
    ensures var end := OwnTurns(limit, Step(limit, s, RouteReturned(c, RouteRaised)), c, observed, n);
            EndsWith(end, c, k, FailedFrom(status), s.failures + 1, s.suspended || s.failures + 1 >= limit)
  {
    FailTurns(limit, Step(limit, s, RouteReturned(c, RouteRaised)), c, k, status, s.failures + 1, observed, n);
  }

  /** From the route's result on, a coroutine left to itself completes its cycle exactly if the route succeeded, the
      cycle is still active and no more waypoints were observed than there are; then the failures are forgotten.
      Otherwise it fails the cycle, unless that is finished already, counts one failure more, and suspends the
      dispatcher if that reaches the limit. */
  lemma RouteOutcomeExactly(limit: nat, s: State, c: nat, result: RouteResult, observed: nat, n: nat)
    requires Inv(limit, s) && c < |s.frames| && s.frames[c].pc.Driving? && n >= 5
    ensures var k := s.frames[c].pc.cycle;
            var end := OwnTurns(limit, Step(limit, s, RouteReturned(c, result)), c, observed, n);
            var was := s.cycles[k].status;
            var completes := was == Active && result.Success? && (result.total == 0 || observed <= result.total);
            && c < |end.frames| && end.frames[c].pc == Clearing(k) && k in end.cycles
            && (end.cycles[k].status == Completed <==> completes || was == Completed)
            && (end.cycles[k].status == Failed <==> !completes && was != Completed)
            && end.failures == (if completes then 0 else s.failures + 1)
            && (end.suspended <==> s.suspended || (!completes && s.failures + 1 >= limit))
  {
    var k := s.frames[c].pc.cycle;
    assert StageOk(limit, s.frames[c].pc, s.cycles[k]);
    match result
    case Success(total) => SuccessTurns(limit, s, c, k, s.cycles[k].status, total, observed, n);
    case NotSuccessful => FailureTurns(limit, s, c, k, s.cycles[k].status, observed, n);
    case RouteRaised => ExceptionTurns(limit, s, c, k, s.cycles[k].status, observed, n);
  }

  /** The clearing itself frees the robot and nothing else. */
  lemma ClearingFreesTheRobot(limit: nat, s: State, c: nat)
    requires Inv(limit, s) && c < |s.frames| && s.frames[c].pc.Clearing?
    ensures var later := Step(limit, s, Resume(c));
            && s.frames[c].robot in s.active && s.frames[c].robot !in later.active
            && (forall r :: r in s.active && r != s.frames[c].robot ==>
                  r in later.active && later.active[r] == s.active[r])
            && later.frames[c].pc == Returned
            && later.cycles[s.frames[c].pc.cycle].status == s.cycles[s.frames[c].pc.cycle].status
            && later.failures == s.failures && later.suspended == s.suspended
  {
    assert StageOk(limit, s.frames[c].pc, s.cycles[s.frames[c].pc.cycle]);
  }

  // ---------- over runs ----------

  /** The route of this coroutine came back with this result in the course of the run. */
  ghost predicate CameBack(limit: nat, actions: seq<Action>, c: nat, success: bool) {
    exists i :: 0 <= i < |actions| && actions[i].RouteReturned? && actions[i].c == c
                && Enabled(Run(limit, actions[..i]), actions[i]) && actions[i].result.Success? == success
  }

  /** What a coroutine's place says about the result of its route. */
  ghost predicate PlaceOk(limit: nat, actions: seq<Action>, c: nat, pc: Pc) {
    && (pc.Observing? ==> CameBack(limit, actions, c, pc.success))
    && (pc.Completing? || pc.CompletionSaved? || pc.Docking? ==> CameBack(limit, actions, c, true))
  }

  lemma CameBackEarlier(limit: nat, actions: seq<Action>, a: Action, c: nat, success: bool)
    requires CameBack(limit, actions, c, success)
    ensures CameBack(limit, actions + [a], c, success)
  {
    var i :| 0 <= i < |actions| && actions[i].RouteReturned? && actions[i].c == c
             && Enabled(Run(limit, actions[..i]), actions[i]) && actions[i].result.Success? == success;
    assert (actions + [a])[i] == actions[i] && (actions + [a])[..i] == actions[..i];
  }

  lemma CameBackNow(limit: nat, actions: seq<Action>, a: Action)
    requires a.RouteReturned? && Enabled(Run(limit, actions), a)
    ensures CameBack(limit, actions + [a], a.c, a.result.Success?)
  {
    assert (actions + [a])[|actions|] == a && (actions + [a])[..|actions|] == actions;
  }

  /** How a coroutine gets to where it observes or completes. */
  ghost predicate MovesRightly(s: State, a: Action, later: State, c: nat)
    requires c < |later.frames|
  {
    var pc := later.frames[c].pc;
    && (pc.Observing? ==>
          (c < |s.frames| && s.frames[c].pc == pc)
          || (a.RouteReturned? && Enabled(s, a) && a.c == c && a.result.Success? == pc.success))
    && (pc.Completing? ==>
          c < |s.frames| && (s.frames[c].pc == pc || (s.frames[c].pc.Observing? && s.frames[c].pc.success)))
    && (pc.CompletionSaved? ==> c < |s.frames| && (s.frames[c].pc == pc || s.frames[c].pc.Completing?))
    && (pc.Docking? ==> c < |s.frames| && (s.frames[c].pc == pc || s.frames[c].pc.CompletionSaved?))
  }

  lemma ContinueMovesOne(limit: nat, s: State, c: nat)
    requires Enabled(s, Resume(c))
    ensures var later := Continue(limit, s, c); later.frames == s.frames[c := later.frames[c]]
  {
  }

  lemma CommitMovesOne(s: State, c: nat)
    requires Enabled(s, Commit(c))
    ensures var later := CommitTurn(s, c); later.frames == s.frames[c := later.frames[c]]
  {
  }

  lemma ResumeMovesRightly(limit: nat, s: State, a: Action)
    requires a.Resume? && Enabled(s, a) && a.c < |Continue(limit, s, a.c).frames|
    ensures MovesRightly(s, a, Continue(limit, s, a.c), a.c)
  {
  }

  lemma CommitMovesRightly(s: State, a: Action)
    requires a.Commit? && Enabled(s, a) && a.c < |CommitTurn(s, a.c).frames|
    ensures MovesRightly(s, a, CommitTurn(s, a.c), a.c)
  {
  }

  lemma StepMovesRightly(limit: nat, s: State, a: Action, c: nat)
    requires c < |Step(limit, s, a).frames|
    ensures MovesRightly(s, a, Step(limit, s, a), c)
  {
    if Enabled(s, a) {
      if a.Resume? {
        ContinueMovesOne(limit, s, a.c);
        ResumeMovesRightly(limit, s, a);
      } else if a.Commit? {
        CommitMovesOne(s, a.c);
        CommitMovesRightly(s, a);
      }
    }
  }

  lemma {:induction false} PlacesAreOk(limit: nat, actions: seq<Action>, c: nat)
    requires c < |Run(limit, actions).frames|
    ensures PlaceOk(limit, actions, c, Run(limit, actions).frames[c].pc)
  {
    var before, a := actions[..|actions| - 1], actions[|actions| - 1];
    var s := Run(limit, before);
    assert actions == before + [a];
    StepMovesRightly(limit, s, a, c);
    if c < |s.frames| {
      PlacesAreOk(limit, before, c);
      if CameBack(limit, before, c, true) {
        CameBackEarlier(limit, before, a, c, true);
      }
      if CameBack(limit, before, c, false) {
        CameBackEarlier(limit, before, a, c, false);
      }
    }
    if a.RouteReturned? && Enabled(s, a) {
      CameBackNow(limit, before, a);
    }
  }

  /** A cycle was completed through the queue from outside, or by a coroutine whose route had come back a success. */
  ghost predicate CompletedRightly(limit: nat, actions: seq<Action>, k: CycleId) {
    exists i :: 0 <= i < |actions|
                && (actions[i] == QueueMove(k, Completed)
                    || (actions[i].Commit? && actions[i].c < |Run(limit, actions[..i]).frames|
                        && Run(limit, actions[..i]).frames[actions[i].c].pc.Completing?
                        && Run(limit, actions[..i]).frames[actions[i].c].pc.cycle == k
                        && CameBack(limit, actions[..i], actions[i].c, true)))
  }

  lemma CompletedEarlier(limit: nat, actions: seq<Action>, a: Action, k: CycleId)
    requires CompletedRightly(limit, actions, k)
    ensures CompletedRightly(limit, actions + [a], k)
  {
    var i :| 0 <= i < |actions|
             && (actions[i] == QueueMove(k, Completed)
                 || (actions[i].Commit? && actions[i].c < |Run(limit, actions[..i]).frames|
                     && Run(limit, actions[..i]).frames[actions[i].c].pc.Completing?
                     && Run(limit, actions[..i]).frames[actions[i].c].pc.cycle == k
                     && CameBack(limit, actions[..i], actions[i].c, true)));
    assert (actions + [a])[i] == actions[i] && (actions + [a])[..i] == actions[..i];
  }

  lemma ResumeCompletesNothing(limit: nat, s: State, c: nat, k: CycleId)
    requires Enabled(s, Resume(c)) && k in Continue(limit, s, c).cycles
    ensures k in s.cycles && Continue(limit, s, c).cycles[k].status == s.cycles[k].status
  {
  }

  lemma CommitCompletes(s: State, c: nat, k: CycleId)
    requires Enabled(s, Commit(c)) && k in CommitTurn(s, c).cycles && CommitTurn(s, c).cycles[k].status == Completed
    ensures (k in s.cycles && s.cycles[k].status == Completed)
            || (s.frames[c].pc.Completing? && s.frames[c].pc.cycle == k)
  {
  }

  /** Where completions come from. */
  lemma StepCompletes(limit: nat, s: State, a: Action, k: CycleId)
    requires k in Step(limit, s, a).cycles && Step(limit, s, a).cycles[k].status == Completed
    ensures (k in s.cycles && s.cycles[k].status == Completed) || a == QueueMove(k, Completed)
            || (a.Commit? && a.c < |s.frames| && s.frames[a.c].pc.Completing? && s.frames[a.c].pc.cycle == k)
  {
    if Enabled(s, a) {
      if a.Resume? {
        ResumeCompletesNothing(limit, s, a.c, k);
      } else if a.Commit? {
        CommitCompletes(s, a.c, k);
      }
    }
  }

  /** Over every run each completed cycle was completed from outside or after a route that succeeded. */
  lemma {:induction false} CompletionsFollowSuccess(limit: nat, actions: seq<Action>, k: CycleId)
    requires k in Run(limit, actions).cycles && Run(limit, actions).cycles[k].status == Completed
    ensures CompletedRightly(limit, actions, k)
  {
    var before, a := actions[..|actions| - 1], actions[|actions| - 1];
    var s := Run(limit, before);
    assert actions == before + [a];
    StepCompletes(limit, s, a, k);
    if k in s.cycles && s.cycles[k].status == Completed {
      CompletionsFollowSuccess(limit, before, k);
      CompletedEarlier(limit, before, a, k);
    } else if a.Commit? {
      PlacesAreOk(limit, before, a.c);
      assert actions[|before|] == a && actions[..|before|] == before;
    } else {
      assert actions[|before|] == QueueMove(k, Completed);
    }
  }
}
