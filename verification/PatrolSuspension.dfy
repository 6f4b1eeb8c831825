/** Which claims can follow a suspension of the patrol dispatcher, by hand or at the failure limit. */
module PatrolSuspensions {
  import opened Common
  import opened PatrolRecords
  import opened PatrolModel
  import opened PatrolSafety

  /** A run from a given state. */
  ghost function RunFrom(limit: nat, s: State, more: seq<Action>): State {
    if more == [] then s else Step(limit, RunFrom(limit, s, more[..|more| - 1]), more[|more| - 1])
  }

  /** The dispatcher is never resumed. */
  ghost predicate StaysSuspended(more: seq<Action>) {
    forall a :: a in more ==> a != SetSuspended(false)
  }

  /** This step makes this coroutine claim a cycle. */
  ghost predicate IsClaim(s: State, a: Action, c: nat) {
    a == Resume(c) && Enabled(s, a) && s.frames[c].pc.Selected? && s.frames[c].pc.choice.Some?
  }

  /** Past the check of the suspension and short of a claim. */
  predicate MayYetClaim(s: State, c: nat) {
    && c < |s.frames|
    && (s.frames[c].pc.AwaitingLock? || s.frames[c].pc.Selecting?
        || (s.frames[c].pc.Selected? && s.frames[c].pc.choice.Some?))
  }

  lemma ResumeLetsNobodyJoin(limit: nat, s: State, a: Action, c: nat)
    requires s.suspended && Enabled(s, a) && a.Resume?
    ensures Continue(limit, s, a.c).suspended && |Continue(limit, s, a.c).frames| == |s.frames|
    ensures MayYetClaim(Continue(limit, s, a.c), c) ==> MayYetClaim(s, c)
  {
  }

  lemma CommitLetsNobodyJoin(s: State, a: Action, c: nat)
    requires s.suspended && Enabled(s, a) && a.Commit?
    ensures CommitTurn(s, a.c).suspended
    ensures MayYetClaim(CommitTurn(s, a.c), c) ==> MayYetClaim(s, c)
  {
  }

  lemma NobodyJoins(limit: nat, s: State, a: Action, c: nat)
    requires s.suspended && a != SetSuspended(false)
    ensures Step(limit, s, a).suspended
    ensures MayYetClaim(Step(limit, s, a), c) ==> MayYetClaim(s, c)
  {
    if Enabled(s, a) {
      if a.Resume? {
        ResumeLetsNobodyJoin(limit, s, a, c);
      } else if a.Commit? {
        CommitLetsNobodyJoin(s, a, c);
      }
    }
  }

  /** Whoever claims after a suspension was past its check when the suspension came. */
  lemma {:induction false} LateClaimsWereWaiting(limit: nat, s: State, more: seq<Action>, c: nat)
    requires s.suspended && StaysSuspended(more)
    ensures RunFrom(limit, s, more).suspended
    ensures MayYetClaim(RunFrom(limit, s, more), c) ==> MayYetClaim(s, c)
  {
    if more != [] {
      var before := more[..|more| - 1];
      assert more[|more| - 1] in more && forall a :: a in before ==> a in more;
      LateClaimsWereWaiting(limit, s, before, c);
      NobodyJoins(limit, RunFrom(limit, s, before), more[|more| - 1], c);
    }
  }

  /** The steps that lead from the free lock to a claim. */
  function ClaimSteps(c: nat, k: CycleId): seq<Action> {
    [AcquireLock(c, false), QueryNext(c, Some(k))]
  }

  lemma TwoSteps(limit: nat, s: State, a: Action, b: Action)
    ensures RunFrom(limit, s, [a]) == Step(limit, s, a)
    ensures RunFrom(limit, s, [a, b]) == Step(limit, Step(limit, s, a), b)
  {
    assert [a][..0] == [] && [a, b][..1] == [a];
  }

  /** A coroutine waiting for the free lock claims a scheduled cycle in spite of the suspension. */
  lemma WaitingMayClaim(limit: nat, s: State, c: nat, k: CycleId)
    requires s.lock == None && c < |s.frames| && s.frames[c].pc.AwaitingLock?
    requires s.frames[c].robot !in s.active && k in s.cycles && s.cycles[k].status == CycleStatus.Scheduled
    ensures IsClaim(RunFrom(limit, s, ClaimSteps(c, k)), Resume(c), c)
  {
    var selecting := At(s, c, Selecting).(lock := Some(c));
    assert Step(limit, s, AcquireLock(c, false)) == selecting;
    assert Step(limit, selecting, QueryNext(c, Some(k))) == At(selecting, c, Selected(Some(k)));
    TwoSteps(limit, s, AcquireLock(c, false), QueryNext(c, Some(k)));
  }

  /** So does one that is inside the lock. */
  lemma LockHolderMayClaim(limit: nat, s: State, c: nat, k: CycleId)
    requires Inv(limit, s) && MayYetClaim(s, c) && HoldsLock(s.frames[c].pc)
    requires k in s.cycles && s.cycles[k].status == CycleStatus.Scheduled
    ensures exists more :: StaysSuspended(more) && IsClaim(RunFrom(limit, s, more), Resume(c), c)
  {
    if s.frames[c].pc.Selected? {
      assert StaysSuspended([]) && IsClaim(RunFrom(limit, s, []), Resume(c), c);
    } else {
      var query := QueryNext(c, Some(k));
      assert Step(limit, s, query) == At(s, c, Selected(Some(k)));
      TwoSteps(limit, s, query, query);
      assert StaysSuspended([query]) && IsClaim(RunFrom(limit, s, [query]), Resume(c), c);
    }
  }

  /** With the lock free or its own and a cycle scheduled, a coroutine whose robot is free can claim after the
      suspension, without the dispatcher being resumed, exactly when it is already past the check and has not been told
      that there is no cycle: the re-check inside the lock does not look at the suspension. */
  lemma SuspendedClaimsExactly(limit: nat, s: State, c: nat, k: CycleId)
    requires Inv(limit, s) && s.suspended && k in s.cycles && s.cycles[k].status == CycleStatus.Scheduled
    requires s.lock == None || (c < |s.frames| && HoldsLock(s.frames[c].pc))
    requires c < |s.frames| ==> s.frames[c].robot !in s.active
    ensures (exists more :: StaysSuspended(more) && IsClaim(RunFrom(limit, s, more), Resume(c), c)) <==>
            MayYetClaim(s, c)
  {
    if MayYetClaim(s, c) {
      if s.lock == None {
        assert s.frames[c].pc.AwaitingLock?;
        WaitingMayClaim(limit, s, c, k);
        assert StaysSuspended(ClaimSteps(c, k));
      } else {
        LockHolderMayClaim(limit, s, c, k);
      }
    }
    forall more | StaysSuspended(more) && IsClaim(RunFrom(limit, s, more), Resume(c), c) ensures MayYetClaim(s, c) {
      LateClaimsWereWaiting(limit, s, more, c);
    }
  }
}
