/** The patrol dispatcher as a state machine, cut at its suspension points like the logistics one. */
module PatrolModel {
  import opened Common
  import opened PatrolRecords

  /** Where a dispatch coroutine is suspended. */
  datatype Pc =
    | AwaitingLock
    | Selecting
    | Selected(choice: Option<CycleId>)
    | Marking(cycle: CycleId)
    | Marked(cycle: CycleId)
    | MarkRejected(cycle: CycleId)
    | Driving(cycle: CycleId)
    | Observing(cycle: CycleId, success: bool, total: nat)
    | Completing(cycle: CycleId, total: nat, observed: nat)
    | CompletionSaved(cycle: CycleId)
    | Docking(cycle: CycleId)
    | Raised(cycle: CycleId)
    | FailMarking(cycle: CycleId, failures: nat)
    | FailPublishing(cycle: CycleId, failures: nat)
    | Clearing(cycle: CycleId)
    | Returned

  predicate Claimed(pc: Pc) {
    !pc.AwaitingLock? && !pc.Selecting? && !pc.Selected? && !pc.Returned?
  }

  predicate HoldsLock(pc: Pc) {
    pc.Selecting? || pc.Selected? || pc.Marking? || pc.Marked? || pc.MarkRejected?
  }

  datatype Frame = Frame(robot: RobotId, pc: Pc)

  /** A cycle: its status, and a record of what happened to it that no step looks at; failedAs is the number its
      failure had among the consecutive failures, zero if it never failed here. */
  datatype Cycle = Cycle(
    status: CycleStatus, claims: nat, drives: nat, cleared: nat, failedAs: nat, suspendedFor: bool)

  const NEW_CYCLE := Cycle(Scheduled, 0, 0, 0, 0, false)

  datatype Verdict = Good | Bad

  datatype State = State(
    suspended: bool, failures: nat, cycles: map<CycleId, Cycle>, active: map<RobotId, CycleId>,
    frames: seq<Frame>, lock: Option<nat>, verdicts: seq<Verdict>)

  const INITIAL := State(false, 0, map[], map[], [], None, [])

  datatype RouteResult = Success(total: nat) | NotSuccessful | RouteRaised

  datatype Action =
    | StartDispatch(robot: RobotId, navigating: bool)
    | AcquireLock(c: nat, navigating: bool)
    | QueryNext(c: nat, choice: Option<CycleId>)
    | RouteReturned(c: nat, result: RouteResult)
    | Observed(c: nat, observed: nat)
    | Commit(c: nat)
    | Resume(c: nat)
    | SubmitCycle(cycle: CycleId)
    | QueueMove(cycle: CycleId, to: CycleStatus)
    | SetSuspended(suspended: bool)

  function At(s: State, c: nat, pc: Pc): State
    requires c < |s.frames|
  {
    s.(frames := s.frames[c := s.frames[c].(pc := pc)])
  }

  function WithCycle(s: State, id: CycleId, cycle: Cycle): State {
    s.(cycles := s.cycles[id := cycle])
  }

  predicate IsCommit(pc: Pc) {
    pc.Marking? || pc.Completing? || pc.FailMarking?
  }

  predicate IsLocal(pc: Pc) {
    pc.Selected? || pc.Marked? || pc.MarkRejected? || pc.CompletionSaved? || pc.Docking? || pc.Raised?
    || pc.FailPublishing? || pc.Clearing?
  }

  predicate Known(s: State, pc: Pc) {
    && (Claimed(pc) ==> pc.cycle in s.cycles)
    && (pc.Selected? && pc.choice.Some? ==> pc.choice.value in s.cycles)
  }

  ghost predicate Enabled(s: State, a: Action) {
    match a
    case StartDispatch(_, _) => true
    case AcquireLock(c, _) => c < |s.frames| && s.frames[c].pc.AwaitingLock? && s.lock == None
    case QueryNext(c, choice) =>
      && c < |s.frames| && s.frames[c].pc.Selecting?
      && (choice.Some? ==> choice.value in s.cycles && s.cycles[choice.value].status == Scheduled)
      && (choice.None? ==> forall k :: k in s.cycles ==> s.cycles[k].status != Scheduled)
    case RouteReturned(c, _) => c < |s.frames| && s.frames[c].pc.Driving? && Known(s, s.frames[c].pc)
    case Observed(c, _) => c < |s.frames| && s.frames[c].pc.Observing? && Known(s, s.frames[c].pc)
    case Commit(c) => c < |s.frames| && IsCommit(s.frames[c].pc) && Known(s, s.frames[c].pc)
    case Resume(c) => c < |s.frames| && IsLocal(s.frames[c].pc) && Known(s, s.frames[c].pc)
    case SubmitCycle(k) => k !in s.cycles
    case QueueMove(k, to) => k in s.cycles && CanTransition(s.cycles[k].status, to)
    case SetSuspended(_) => true
  }

  function Claim(s: State, c: nat, k: CycleId): State
    requires c < |s.frames| && k in s.cycles
  {
    At(s, c, Marking(k)).(
      active := s.active[s.frames[c].robot := k],
      cycles := s.cycles[k := s.cycles[k].(claims := s.cycles[k].claims + 1)])
  }

  function BeginRoute(s: State, c: nat, k: CycleId): State
    requires c < |s.frames| && k in s.cycles
  {
    At(WithCycle(s, k, s.cycles[k].(drives := s.cycles[k].drives + 1)), c, Driving(k)).(lock := None)
  }

  /** The start of _handle_cycle_failure: count, then ask to mark the cycle failed. */
  function BeginFailure(s: State, c: nat, k: CycleId): State
    requires c < |s.frames| && k in s.cycles
  {
    At(WithCycle(s, k, s.cycles[k].(failedAs := s.failures + 1)), c, FailMarking(k, s.failures + 1)).(
      failures := s.failures + 1, verdicts := s.verdicts + [Bad])
  }

  /** The end of _handle_cycle_failure: suspend when the limit is reached. */
  function EndFailure(limit: nat, s: State, c: nat, k: CycleId, failures: nat): State
    requires c < |s.frames| && k in s.cycles
  {
    if failures >= limit then
      At(WithCycle(s, k, s.cycles[k].(suspendedFor := true)), c, Clearing(k)).(suspended := true)
    else At(s, c, Clearing(k))
  }

  function Clear(s: State, c: nat, k: CycleId): State
    requires c < |s.frames| && k in s.cycles
  {
    At(WithCycle(s, k, s.cycles[k].(cleared := s.cycles[k].cleared + 1)), c, Returned).(
      active := s.active - {s.frames[c].robot})
  }

  function Continue(limit: nat, s: State, c: nat): State
    requires c < |s.frames| && IsLocal(s.frames[c].pc) && Known(s, s.frames[c].pc)
  {
    match s.frames[c].pc
    case Selected(choice) =>
      if choice.Some? then Claim(s, c, choice.value) else At(s, c, Returned).(lock := None)
    case Marked(k) => BeginRoute(s, c, k)
    case MarkRejected(k) => BeginFailure(s.(lock := None), c, k)
    case CompletionSaved(k) => At(s, c, Docking(k)).(failures := 0, verdicts := s.verdicts + [Good])
    case Docking(k) => At(s, c, Clearing(k))
    case Raised(k) => BeginFailure(s, c, k)
    case FailPublishing(k, failures) => EndFailure(limit, s, c, k, failures)
    case Clearing(k) => Clear(s, c, k)
  }

  /** A transition request's turn: mark_active, mark_completed with its counts, or mark_failed, whose rejection is
      swallowed. */
  function CommitTurn(s: State, c: nat): State
    requires c < |s.frames| && IsCommit(s.frames[c].pc) && Known(s, s.frames[c].pc)
  {
    var pc := s.frames[c].pc;
    var cycle := s.cycles[pc.cycle];
    match pc
    case Marking(k) =>
      if CanTransition(cycle.status, Active) then At(WithCycle(s, k, cycle.(status := Active)), c, Marked(k))
      else At(s, c, MarkRejected(k))
    case Completing(k, total, observed) =>
      if CanTransition(cycle.status, Completed) && CountsOk(total, observed)
      then At(WithCycle(s, k, cycle.(status := Completed)), c, CompletionSaved(k))
      else At(s, c, Raised(k))
    case FailMarking(k, failures) =>
      var next := At(s, c, FailPublishing(k, failures));
      if CanTransition(cycle.status, Failed) then WithCycle(next, k, cycle.(status := Failed)) else next
  }

  ghost function Effect(limit: nat, s: State, a: Action): State
    requires Enabled(s, a)
  {
    match a
    case StartDispatch(robot, navigating) =>
      var refused := s.suspended || robot in s.active || navigating;
      s.(frames := s.frames + [Frame(robot, if refused then Returned else AwaitingLock)])
    case AcquireLock(c, navigating) =>
      if s.frames[c].robot in s.active || navigating then At(s, c, Returned)
      else At(s, c, Selecting).(lock := Some(c))
    case QueryNext(c, choice) => At(s, c, Selected(choice))
    case RouteReturned(c, result) =>
      var k := s.frames[c].pc.cycle;
      (match result
       case Success(total) => At(s, c, Observing(k, true, total))
       case NotSuccessful => At(s, c, Observing(k, false, 0))
       case RouteRaised => BeginFailure(s, c, k))
    case Observed(c, observed) =>
      var pc := s.frames[c].pc;
      if pc.success then At(s, c, Completing(pc.cycle, pc.total, observed)) else BeginFailure(s, c, pc.cycle)
    case Commit(c) => CommitTurn(s, c)
    case Resume(c) => Continue(limit, s, c)
    case SubmitCycle(k) => WithCycle(s, k, NEW_CYCLE)
    case QueueMove(k, to) => WithCycle(s, k, s.cycles[k].(status := to))
    case SetSuspended(b) => s.(suspended := b)
  }

  ghost function Step(limit: nat, s: State, a: Action): State {
    if Enabled(s, a) then Effect(limit, s, a) else s
  }

  ghost function Run(limit: nat, actions: seq<Action>): State {
    if actions == [] then INITIAL else Step(limit, Run(limit, actions[..|actions| - 1]), actions[|actions| - 1])
  }

  /** The states of all runs under a failure limit. */
  ghost predicate Reachable(limit: nat, s: State) {
    exists actions :: Run(limit, actions) == s
  }

  /** How many failures there were since the last success. */
  function TrailingFailures(verdicts: seq<Verdict>): nat {
    if verdicts == [] || verdicts[|verdicts| - 1].Good? then 0
    else 1 + TrailingFailures(verdicts[..|verdicts| - 1])
  }
}
