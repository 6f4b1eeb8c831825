/** The logistics dispatcher as a state machine.
    One step is the code executed between two suspension points of a dispatch coroutine, of the bus handler in
    progress (the bus runs handlers one at a time) or of the environment (submissions, cancels, watchdog failures).
    Status updates go through the queue lock, which serves its waiters in the order in which they asked: every
    waiter carries a ticket and only the least outstanding ticket may commit. */
module DispatchModel {
  import opened Common
  import opened TaskStatus

  /** Where a dispatch coroutine is suspended. */
  datatype Pc =
    | AwaitingState
    | AwaitingLock
    | Selecting
    | Selected(choice: Option<TaskId>)
    | Marking(task: TaskId, ticket: nat)
    | Marked(task: TaskId)
    | MarkRejected(task: TaskId)
    | Driving(task: TaskId)
    | ReadingOutcome(task: TaskId)
    | OutcomeRead(task: TaskId, seen: Status)
    | Completing(task: TaskId, ticket: nat)
    | ReadingForFailure(task: TaskId, handling: bool)
    | FailureRead(task: TaskId, handling: bool, seen: Status)
    | Failing(task: TaskId, handling: bool, ticket: nat)
    | Raised(task: TaskId)
    | Releasing(task: TaskId)
    | Returned

  /** Between claiming a task and releasing the robot. */
  predicate Claimed(pc: Pc) {
    !pc.AwaitingState? && !pc.AwaitingLock? && !pc.Selecting? && !pc.Selected? && !pc.Returned?
  }

  predicate HoldsLock(pc: Pc) {
    pc.Selecting? || pc.Selected? || pc.Marking? || pc.Marked? || pc.MarkRejected?
  }

  /** Waiting for the queue lock with a ticket. */
  predicate Waiting(pc: Pc) {
    pc.Marking? || pc.Completing? || pc.Failing?
  }

  /** Suspended at a point whose next segment needs nothing but the dispatcher's own dictionaries. */
  predicate IsLocal(pc: Pc) {
    pc.Selected? || pc.Marked? || pc.MarkRejected? || pc.OutcomeRead? || pc.FailureRead? || pc.Raised? || pc.Releasing?
  }

  datatype Frame = Frame(robot: RobotId, pc: Pc)

  datatype EventKind = Arrival | LoadConfirmed | UnloadConfirmed

  /** The bus handler in progress; first is the task whose record it asked for, task the one it re-read later. */
  datatype Handler =
    | Idle
    | Reading(kind: EventKind, robot: RobotId, first: TaskId)
    | Read(kind: EventKind, robot: RobotId, first: TaskId, seen: Status)
    | Committing(kind: EventKind, robot: RobotId, first: TaskId, task: TaskId, target: Status, ticket: nat)

  /** The entries a robot has in the dispatcher's dictionaries while it works on a task. */
  datatype Slot = Slot(task: TaskId, holds: nat, load: bool, unload: bool)

  /** A task: its status, and a record of what happened to it that no step looks at. */
  datatype Task = Task(
    status: Status, claims: nat, dispatches: nat, drives: nat,
    holds: nat, loadWhileAwaiting: bool, unload: bool)

  const NEW_TASK := Task(Queued, 0, 0, 0, 0, false, false)

  datatype State = State(
    paused: bool, tasks: map<TaskId, Task>, slots: map<RobotId, Slot>,
    frames: seq<Frame>, lock: Option<nat>, nextTicket: nat, handler: Handler)

  const INITIAL := State(false, map[], map[], [], None, 0, Idle)

  datatype RouteResult = Success | NotSuccessful | RouteRaised

  datatype Action =
    | StartDispatch(robot: RobotId, navigating: bool)
    | StateRead(c: nat, connected: bool)
    | AcquireLock(c: nat, navigating: bool)
    | QueryNext(c: nat, choice: Option<TaskId>)
    | RouteReturned(c: nat, result: RouteResult)
    | ReadRecord(c: nat)
    | Commit(c: nat)
    | Resume(c: nat)
    | HandleEvent(kind: EventKind, robot: RobotId, eventTask: Option<TaskId>, hold: bool)
    | HandlerRead
    | HandlerResume
    | HandlerCommit
    | SubmitTask(task: TaskId)
    | CancelTask(task: TaskId)
    | WatchdogFail(task: TaskId)
    | SetPaused(paused: bool)

  function At(s: State, c: nat, pc: Pc): State
    requires c < |s.frames|
  {
    s.(frames := s.frames[c := s.frames[c].(pc := pc)])
  }

  function WithTask(s: State, t: TaskId, task: Task): State {
    s.(tasks := s.tasks[t := task])
  }

  /** Nobody who asked for the queue lock earlier is still waiting. */
  predicate IsServed(s: State, ticket: nat) {
    && (forall c :: 0 <= c < |s.frames| && Waiting(s.frames[c].pc) ==> ticket <= s.frames[c].pc.ticket)
    && (s.handler.Committing? ==> ticket <= s.handler.ticket)
  }

  /** When an action can happen; at other times it leaves the state alone. */
  ghost predicate Enabled(s: State, a: Action) {
    match a
    case StartDispatch(_, _) => true
    case StateRead(c, _) => c < |s.frames| && s.frames[c].pc.AwaitingState?
    case AcquireLock(c, _) => c < |s.frames| && s.frames[c].pc.AwaitingLock? && s.lock == None
    case QueryNext(c, choice) =>
      && c < |s.frames| && s.frames[c].pc.Selecting?
      && (choice.Some? ==> choice.value in s.tasks && s.tasks[choice.value].status == Queued)
      && (choice.None? ==> forall t :: t in s.tasks ==> s.tasks[t].status != Queued)
    case RouteReturned(c, _) => c < |s.frames| && s.frames[c].pc.Driving?
    case ReadRecord(c) =>
      && c < |s.frames| && (s.frames[c].pc.ReadingOutcome? || s.frames[c].pc.ReadingForFailure?)
      && s.frames[c].pc.task in s.tasks
    case Commit(c) =>
      && c < |s.frames| && Waiting(s.frames[c].pc)
      && s.frames[c].pc.task in s.tasks && IsServed(s, s.frames[c].pc.ticket)
    case Resume(c) =>
      && c < |s.frames| && IsLocal(s.frames[c].pc)
      && (Claimed(s.frames[c].pc) ==> s.frames[c].pc.task in s.tasks)
      && (s.frames[c].pc.Selected? && s.frames[c].pc.choice.Some? ==> s.frames[c].pc.choice.value in s.tasks)
    case HandleEvent(_, robot, _, _) => s.handler.Idle? && (robot in s.slots ==> s.slots[robot].task in s.tasks)
    case HandlerRead => s.handler.Reading? && s.handler.first in s.tasks
    case HandlerResume => s.handler.Read?
    case HandlerCommit => s.handler.Committing? && s.handler.task in s.tasks && IsServed(s, s.handler.ticket)
    case SubmitTask(t) => t !in s.tasks
    case CancelTask(t) => t in s.tasks
    case WatchdogFail(t) => t in s.tasks
    case SetPaused(_) => true
  }

  /** A status change that the transition table allows, or nothing. */
  function Transition(s: State, t: TaskId, target: Status): State
    requires t in s.tasks
  {
    if Allowed(s.tasks[t].status, target) then WithTask(s, t, s.tasks[t].(status := target)) else s
  }

  /** Entry of the except clause: fail whatever the robot is recorded to work on. */
  function EnterExcept(s: State, c: nat, t: TaskId): State
    requires c < |s.frames|
  {
    var robot := s.frames[c].robot;
    if robot in s.slots then At(s, c, ReadingForFailure(s.slots[robot].task, true)) else At(s, c, Releasing(t))
  }

  function Claim(s: State, c: nat, t: TaskId): State
    requires c < |s.frames| && t in s.tasks
  {
    At(s, c, Marking(t, s.nextTicket)).(
      nextTicket := s.nextTicket + 1,
      slots := s.slots[s.frames[c].robot := Slot(t, 0, false, false)],
      tasks := s.tasks[t := s.tasks[t].(claims := s.tasks[t].claims + 1)])
  }

  function BeginRoute(s: State, c: nat, t: TaskId): State
    requires c < |s.frames| && t in s.tasks
  {
    At(WithTask(s, t, s.tasks[t].(drives := s.tasks[t].drives + 1)), c, Driving(t)).(lock := None)
  }

  function Release(s: State, c: nat): State
    requires c < |s.frames|
  {
    At(s, c, Returned).(slots := s.slots - {s.frames[c].robot})
  }

  /** Whether a successful route makes the coroutine complete the task itself. */
  predicate WantsCompletion(s: State, robot: RobotId, seen: Status) {
    && seen != Completed
    && ((robot in s.slots && s.slots[robot].unload && seen == AwaitingUnload)
        || (if robot in s.slots then s.slots[robot].holds else 0) == 0)
  }

  /** The local segments of a coroutine. */
  function Continue(s: State, c: nat): State
    requires c < |s.frames| && IsLocal(s.frames[c].pc)
    requires Claimed(s.frames[c].pc) ==> s.frames[c].pc.task in s.tasks
    requires s.frames[c].pc.Selected? && s.frames[c].pc.choice.Some? ==> s.frames[c].pc.choice.value in s.tasks
  {
    match s.frames[c].pc
    case Selected(choice) =>
      if choice.Some? then Claim(s, c, choice.value) else At(s, c, Returned).(lock := None)
    case Marked(t) => BeginRoute(s, c, t)
    case MarkRejected(t) => EnterExcept(s.(lock := None), c, t)
    case OutcomeRead(t, seen) =>
      if WantsCompletion(s, s.frames[c].robot, seen)
      then At(s, c, Completing(t, s.nextTicket)).(nextTicket := s.nextTicket + 1)
      else At(s, c, Releasing(t))
    case FailureRead(t, handling, seen) =>
      if Terminal(seen) then At(s, c, Releasing(t))
      else At(s, c, Failing(t, handling, s.nextTicket)).(nextTicket := s.nextTicket + 1)
    case Raised(t) => EnterExcept(s, c, t)
    case Releasing(_) => Release(s, c)
  }

  /** The status a waiting coroutine asks for. */
  function Target(pc: Pc): Status
    requires Waiting(pc)
  {
    if pc.Marking? then Dispatched else if pc.Completing? then Completed else Failed
  }

  /** A granted transition. */
  function Granted(s: State, c: nat): State
    requires c < |s.frames| && Waiting(s.frames[c].pc) && s.frames[c].pc.task in s.tasks
  {
    var pc := s.frames[c].pc;
    var task := s.tasks[pc.task].(status := Target(pc));
    if pc.Marking? then At(WithTask(s, pc.task, task.(dispatches := task.dispatches + 1)), c, Marked(pc.task))
    else At(WithTask(s, pc.task, task), c, Releasing(pc.task))
  }

  /** A rejected transition raises, except inside the except clause, which swallows it. */
  function Rejected(pc: Pc): Pc
    requires Waiting(pc)
  {
    if pc.Marking? then MarkRejected(pc.task)
    else if pc.Failing? && pc.handling then Releasing(pc.task)
    else Raised(pc.task)
  }

  /** A coroutine's turn at the queue lock. */
  function CommitTurn(s: State, c: nat): State
    requires c < |s.frames| && Waiting(s.frames[c].pc) && s.frames[c].pc.task in s.tasks
  {
    var pc := s.frames[c].pc;
    if Allowed(s.tasks[pc.task].status, Target(pc)) then Granted(s, c) else At(s, c, Rejected(pc))
  }

  /** Whether an event concerns the task its robot works on. */
  predicate Matches(s: State, kind: EventKind, robot: RobotId, eventTask: Option<TaskId>, hold: bool) {
    && robot in s.slots
    && (eventTask.Some? ==> eventTask.value == s.slots[robot].task)
    && (kind.Arrival? ==> hold)
  }

  /** The first segment of a bus handler. */
  function BeginHandler(s: State, kind: EventKind, robot: RobotId): State
    requires robot in s.slots && s.slots[robot].task in s.tasks
  {
    var slot := s.slots[robot];
    var task := s.tasks[slot.task];
    var started := s.(handler := Reading(kind, robot, slot.task));
    match kind
    case Arrival =>
      var counted := WithTask(started, slot.task, task.(holds := task.holds + 1));
      counted.(slots := s.slots[robot := slot.(holds := slot.holds + 1)])
    case LoadConfirmed => started.(slots := s.slots[robot := slot.(load := true)])
    case UnloadConfirmed =>
      WithTask(started, slot.task, task.(unload := true)).(slots := s.slots[robot := slot.(unload := true)])
  }

  function ReadForHandler(s: State): State
    requires s.handler.Reading? && s.handler.first in s.tasks
  {
    var h := s.handler;
    var task := s.tasks[h.first];
    var read := s.(handler := Read(h.kind, h.robot, h.first, task.status));
    if h.kind.LoadConfirmed? && task.status == AwaitingLoad then
      WithTask(read, h.first, task.(loadWhileAwaiting := true))
    else
      read
  }

  /** The transition the handler asks for, if any, from the record it read and the robot's present count.
      A count that has been dropped meanwhile raises KeyError, which ends the handler. */
  function Wanted(s: State): Option<Status>
    requires s.handler.Read?
  {
    var h := s.handler;
    match h.kind
    case Arrival =>
      if h.robot !in s.slots then None
      else if s.slots[h.robot].holds == 1 && h.seen == Dispatched then Some(AwaitingLoad)
      else if s.slots[h.robot].holds >= 2 && (h.seen == InTransit || h.seen == AwaitingLoad) then Some(AwaitingUnload)
      else None
    case LoadConfirmed => if h.seen == AwaitingLoad then Some(InTransit) else None
    case UnloadConfirmed => if h.seen == AwaitingUnload then Some(Completed) else None
  }

  function ResumeHandler(s: State): State
    requires s.handler.Read?
  {
    var h := s.handler;
    var wanted := Wanted(s);
    if wanted.None? || h.robot !in s.slots then s.(handler := Idle)
    else s.(handler := Committing(h.kind, h.robot, h.first, s.slots[h.robot].task, wanted.value, s.nextTicket),
            nextTicket := s.nextTicket + 1)
  }

  ghost function Effect(s: State, a: Action): State
    requires Enabled(s, a)
  {
    match a
    case StartDispatch(robot, navigating) =>
      var refused := s.paused || robot in s.slots || navigating;
      s.(frames := s.frames + [Frame(robot, if refused then Returned else AwaitingState)])
    case StateRead(c, connected) => At(s, c, if connected then AwaitingLock else Returned)
    case AcquireLock(c, navigating) =>
      if s.frames[c].robot in s.slots || navigating then At(s, c, Returned)
      else At(s, c, Selecting).(lock := Some(c))
    case QueryNext(c, choice) => At(s, c, Selected(choice))
    case RouteReturned(c, result) =>
      (match result
       case Success => At(s, c, ReadingOutcome(s.frames[c].pc.task))
       case NotSuccessful => At(s, c, ReadingForFailure(s.frames[c].pc.task, false))
       case RouteRaised => EnterExcept(s, c, s.frames[c].pc.task))
    case ReadRecord(c) =>
      var pc := s.frames[c].pc;
      At(s, c, if pc.ReadingOutcome? then OutcomeRead(pc.task, s.tasks[pc.task].status)
               else FailureRead(pc.task, pc.handling, s.tasks[pc.task].status))
    case Commit(c) => CommitTurn(s, c)
    case Resume(c) => Continue(s, c)
    case HandleEvent(kind, robot, eventTask, hold) =>
      if Matches(s, kind, robot, eventTask, hold) then BeginHandler(s, kind, robot) else s
    case HandlerRead => ReadForHandler(s)
    case HandlerResume => ResumeHandler(s)
    case HandlerCommit => Transition(s, s.handler.task, s.handler.target).(handler := Idle)
    case SubmitTask(t) => WithTask(s, t, NEW_TASK)
    case CancelTask(t) => Transition(s, t, Cancelled)
    case WatchdogFail(t) => Transition(s, t, Failed)
    case SetPaused(p) => s.(paused := p)
  }

  ghost function Step(s: State, a: Action): State {
    if Enabled(s, a) then Effect(s, a) else s
  }

  /** The except clause, from inside or outside the dispatch lock. */
  lemma ExceptStep(s: State, c: nat)
    requires Enabled(s, Resume(c)) && (s.frames[c].pc.MarkRejected? || s.frames[c].pc.Raised?)
    ensures var pc := s.frames[c].pc;
            Step(s, Resume(c)) == EnterExcept(if pc.MarkRejected? then s.(lock := None) else s, c, pc.task)
  {
  }

  ghost function Run(actions: seq<Action>): State {
    if actions == [] then INITIAL else Step(Run(actions[..|actions| - 1]), actions[|actions| - 1])
  }

  /** The states of all runs. */
  ghost predicate Reachable(s: State) {
    exists actions :: Run(actions) == s
  }

  /** A run from a given state. */
  ghost function RunFrom(s: State, more: seq<Action>): State {
    if more == [] then s else Step(RunFrom(s, more[..|more| - 1]), more[|more| - 1])
  }
}
