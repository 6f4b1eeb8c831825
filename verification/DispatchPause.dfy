/** Which claims can follow a pause of the logistics dispatcher. */
module DispatchPauses {
  import opened Common
  import opened TaskStatus
  import opened DispatchModel
  import opened DispatchSafety

  /** The dispatcher is never resumed. */
  ghost predicate StaysPaused(more: seq<Action>) {
    forall a :: a in more ==> a != SetPaused(false)
  }

  /** This step makes this coroutine claim a task. */
  ghost predicate IsClaim(s: State, a: Action, c: nat) {
    a == Resume(c) && Enabled(s, a) && s.frames[c].pc.Selected? && s.frames[c].pc.choice.Some?
  }

  /** Past the check of the pause and short of a claim. */
  predicate MayYetClaim(s: State, c: nat) {
    && c < |s.frames|
    && (s.frames[c].pc.AwaitingState? || s.frames[c].pc.AwaitingLock? || s.frames[c].pc.Selecting?
        || (s.frames[c].pc.Selected? && s.frames[c].pc.choice.Some?))
  }

  lemma NobodyJoins(s: State, a: Action, c: nat)
    requires s.paused && a != SetPaused(false)
    ensures Step(s, a).paused
    ensures MayYetClaim(Step(s, a), c) ==> MayYetClaim(s, c)
  {
    if Enabled(s, a) {
      if a.Resume? {
        ResumeLetsNobodyJoin(s, a, c);
      } else if a.Commit? {
        CommitLetsNobodyJoin(s, a, c);
      }
    }
  }

  lemma ResumeLetsNobodyJoin(s: State, a: Action, c: nat)
    requires s.paused && Enabled(s, a) && a.Resume?
    ensures Continue(s, a.c).paused && |Continue(s, a.c).frames| == |s.frames|
    ensures MayYetClaim(Continue(s, a.c), c) ==> MayYetClaim(s, c)
  {
  }

  lemma CommitLetsNobodyJoin(s: State, a: Action, c: nat)
    requires s.paused && Enabled(s, a) && a.Commit?
    ensures CommitTurn(s, a.c).paused
    ensures MayYetClaim(CommitTurn(s, a.c), c) ==> MayYetClaim(s, c)
  {
  }

  /** Whoever claims after a pause was past its check when the pause came. */
  lemma {:induction false} LateClaimsWereWaiting(s: State, more: seq<Action>, c: nat)
    requires s.paused && StaysPaused(more)
    ensures RunFrom(s, more).paused
    ensures MayYetClaim(RunFrom(s, more), c) ==> MayYetClaim(s, c)
  {
    if more != [] {
      var before := more[..|more| - 1];
      assert more[|more| - 1] in more && forall a :: a in before ==> a in more;
      LateClaimsWereWaiting(s, before, c);
      NobodyJoins(RunFrom(s, before), more[|more| - 1], c);
    }
  }

  /** The steps that lead from the free lock to a claim. */
  function ClaimSteps(c: nat, t: TaskId): seq<Action> {
    [AcquireLock(c, false), QueryNext(c, Some(t))]
  }

  lemma TwoSteps(s: State, a: Action, b: Action)
    ensures RunFrom(s, [a]) == Step(s, a)
    ensures RunFrom(s, [a, b]) == Step(Step(s, a), b)
  {
    assert [a][..0] == [] && [a, b][..1] == [a];
  }

  lemma AcquireStep(s: State, c: nat)
    requires s.lock == None && c < |s.frames| && s.frames[c].pc.AwaitingLock? && s.frames[c].robot !in s.slots
    ensures Step(s, AcquireLock(c, false)) == At(s, c, Selecting).(lock := Some(c))
  {
  }

  lemma QueryStep(s: State, c: nat, t: TaskId)
    requires c < |s.frames| && s.frames[c].pc.Selecting? && t in s.tasks && s.tasks[t].status == Queued
    ensures Step(s, QueryNext(c, Some(t))) == At(s, c, Selected(Some(t)))
  {
  }

  /** A coroutine waiting for the free lock claims a queued task in spite of the pause. */
  lemma LockedOutMayClaim(s: State, c: nat, t: TaskId)
    requires s.lock == None && c < |s.frames| && s.frames[c].pc.AwaitingLock?
    requires s.frames[c].robot !in s.slots && t in s.tasks && s.tasks[t].status == Queued
    ensures IsClaim(RunFrom(s, ClaimSteps(c, t)), Resume(c), c)
  {
    var selecting := At(s, c, Selecting).(lock := Some(c));
    AcquireStep(s, c);
    QueryStep(selecting, c, t);
    TwoSteps(s, ClaimSteps(c, t)[0], ClaimSteps(c, t)[1]);
  }

  lemma {:induction false} RunFromAppends(s: State, more: seq<Action>, rest: seq<Action>)
    ensures RunFrom(s, more + rest) == RunFrom(RunFrom(s, more), rest)
  {
    if rest == [] {
      assert more + rest == more;
    } else {
      var before := rest[..|rest| - 1];
      RunFromAppends(s, more, before);
      assert (more + rest)[..|more + rest| - 1] == more + before;
    }
  }

  lemma UncheckedMayClaim(s: State, c: nat, t: TaskId)
    requires s.lock == None && c < |s.frames| && s.frames[c].pc.AwaitingState?
    requires s.frames[c].robot !in s.slots && t in s.tasks && s.tasks[t].status == Queued
    ensures IsClaim(RunFrom(s, [StateRead(c, true)] + ClaimSteps(c, t)), Resume(c), c)
  {
    var read := StateRead(c, true);
    assert Step(s, read) == At(s, c, AwaitingLock);
    LockedOutMayClaim(At(s, c, AwaitingLock), c, t);
    TwoSteps(s, read, read);
    RunFromAppends(s, [read], ClaimSteps(c, t));
  }

  /** So does one that is inside the lock. */
  lemma LockHolderMayClaim(s: State, c: nat, t: TaskId)
    requires Inv(s) && MayYetClaim(s, c) && HoldsLock(s.frames[c].pc) && t in s.tasks && s.tasks[t].status == Queued
    ensures exists more :: StaysPaused(more) && IsClaim(RunFrom(s, more), Resume(c), c)
  {
    if s.frames[c].pc.Selected? {
      assert StaysPaused([]) && IsClaim(RunFrom(s, []), Resume(c), c);
    } else {
      var query := QueryNext(c, Some(t));
      QueryStep(s, c, t);
      TwoSteps(s, query, query);
      assert StaysPaused([query]) && IsClaim(RunFrom(s, [query]), Resume(c), c);
    }
  }

  lemma WaitingMayClaim(s: State, c: nat, t: TaskId)
    requires Inv(s) && s.lock == None && MayYetClaim(s, c)
    requires s.frames[c].robot !in s.slots && t in s.tasks && s.tasks[t].status == Queued
    ensures exists more :: StaysPaused(more) && IsClaim(RunFrom(s, more), Resume(c), c)
  {
    assert s.frames[c].pc.AwaitingState? || s.frames[c].pc.AwaitingLock?;
    var more := (if s.frames[c].pc.AwaitingState? then [StateRead(c, true)] else []) + ClaimSteps(c, t);
    assert StaysPaused(more);
    if s.frames[c].pc.AwaitingState? {
      UncheckedMayClaim(s, c, t);
    } else {
      assert more == ClaimSteps(c, t);
      LockedOutMayClaim(s, c, t);
    }
  }

  /** With the lock free or its own and a task queued, a coroutine whose robot is free can claim after the pause,
      without the dispatcher being resumed, exactly when it is already past the check of the pause and has not been told
      that there is no task: the re-check inside the lock does not look at the pause. */
  lemma PausedClaimsExactly(s: State, c: nat, t: TaskId)
    requires Inv(s) && s.paused && t in s.tasks && s.tasks[t].status == Queued
    requires s.lock == None || (c < |s.frames| && HoldsLock(s.frames[c].pc))
    requires c < |s.frames| ==> s.frames[c].robot !in s.slots
    ensures (exists more :: StaysPaused(more) && IsClaim(RunFrom(s, more), Resume(c), c)) <==> MayYetClaim(s, c)
  {
    if MayYetClaim(s, c) {
      if s.lock == None {
        WaitingMayClaim(s, c, t);
      } else {
        LockHolderMayClaim(s, c, t);
      }
    }
    forall more | StaysPaused(more) && IsClaim(RunFrom(s, more), Resume(c), c) ensures MayYetClaim(s, c) {
      LateClaimsWereWaiting(s, more, c);
    }
  }
}
