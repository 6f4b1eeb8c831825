/** The event bus as a state machine: one bounded queue, and dispatch loops that take events from it and call the chosen
    callbacks one after another. The bus means to have one loop at a time; start, and the three segments of stop, decide
    whether it has. */
module EventBusModel {
  import opened Common

  datatype Event = Event(name: string, serial: nat)

  datatype Subscription = Subscription(id: nat, name: string)

  datatype Item = Publication(event: Event) | StopSentinel

  /** A dispatch loop: waiting in get, going through the callbacks of one event, about to return, or done. */
  datatype Loop = Waiting | Dispatching(event: Event, rest: seq<Subscription>) | Stopping | Ended

  /** A call of stop: waiting for idle, released from that wait, waiting for the loop it found in the task field. */
  datatype Stopper = AwaitingIdle | Released | AwaitingLoop(loop: nat) | Gone

  datatype Delivery = Delivery(subscriber: nat, event: Event)

  /** An event taken from the queue with the callbacks chosen for it at that moment. */
  datatype Plan = Plan(event: Event, callbacks: seq<Subscription>)

  /** task is the reference to the dispatch loop; accepted, taken and delivered record the past. */
  datatype State = State(
    queue: seq<Item>, subscriptions: seq<Subscription>, loops: seq<Loop>, task: Option<nat>, stoppers: seq<Stopper>,
    unfinished: nat, nextId: nat, accepted: seq<Event>, taken: seq<Plan>, delivered: seq<Delivery>)

  const INITIAL := State([], [], [], None, [], 0, 0, [], [], [])

  const WILDCARD: string := "*"

  /** A name as stored: enumerated names and plain strings alike end up stripped; a blank one is an error, and so
      is publishing under the literal wildcard. */
  function Normalize(name: string, allowWildcard: bool): Option<string> {
    if name == WILDCARD then (if allowWildcard then Some(WILDCARD) else None)
    else if Strip(name) == "" then None
    else Some(Strip(name))
  }

  function Filtered(subs: seq<Subscription>, name: string): seq<Subscription> {
    if subs == [] then []
    else (if subs[0].name == name then [subs[0]] else []) + Filtered(subs[1..], name)
  }

  /** The callbacks for an event: exact matches in subscription order, then the wildcards. */
  function Matching(subs: seq<Subscription>, name: string): seq<Subscription> {
    Filtered(subs, name) + Filtered(subs, WILDCARD)
  }

  datatype Action =
    | Subscribe(name: string)
    | Unsubscribe(id: nat)
    | Publish(name: string)
    | StartLoop
    | CallStop
    | IdleReached(j: nat)
    | PutSentinel(j: nat)
    | FinishStop(j: nat)
    | Get(k: nat)
    | Invoke(k: nat)
    | TaskDone(k: nat)

  /** Capacity 0 means unbounded. */
  predicate HasRoom(capacity: nat, queue: seq<Item>) {
    capacity == 0 || |queue| < capacity
  }

  /** The task field refers to a loop that is not done. */
  predicate TaskAlive(s: State) {
    s.task.Some? && s.task.value < |s.loops| && !s.loops[s.task.value].Ended?
  }

  predicate Enabled(capacity: nat, s: State, a: Action) {
    match a
    case Subscribe(name) => Normalize(name, true).Some?
    case Unsubscribe(_) => true
    case Publish(name) => Normalize(name, false).Some? && HasRoom(capacity, s.queue)
    case StartLoop => !TaskAlive(s)
    case CallStop => s.task.Some?
    case IdleReached(j) => j < |s.stoppers| && s.stoppers[j].AwaitingIdle? && s.unfinished == 0
    case PutSentinel(j) => j < |s.stoppers| && s.stoppers[j].Released? && HasRoom(capacity, s.queue)
    case FinishStop(j) =>
      && j < |s.stoppers| && s.stoppers[j].AwaitingLoop?
      && s.stoppers[j].loop < |s.loops| && s.loops[s.stoppers[j].loop].Ended?
    case Get(k) => k < |s.loops| && s.loops[k].Waiting? && s.queue != []
    case Invoke(k) => k < |s.loops| && s.loops[k].Dispatching? && s.loops[k].rest != []
    case TaskDone(k) =>
      k < |s.loops| && ((s.loops[k].Dispatching? && s.loops[k].rest == []) || s.loops[k].Stopping?)
  }

  function WithoutId(subs: seq<Subscription>, id: nat): seq<Subscription> {
    if subs == [] then []
    else if subs[0].id == id then WithoutId(subs[1..], id)
    else [subs[0]] + WithoutId(subs[1..], id)
  }

  function WithLoop(s: State, k: nat, loop: Loop): State
    requires k < |s.loops|
  {
    s.(loops := s.loops[k := loop])
  }

  function WithStopper(s: State, j: nat, stopper: Stopper): State
    requires j < |s.stoppers|
  {
    s.(stoppers := s.stoppers[j := stopper])
  }

  /** The sentinel is in the queue and the task field is awaited: nothing there is an error, a loop already done is not
      waited for. */
  function AwaitTask(s: State, j: nat): State
    requires j < |s.stoppers|
  {
    if s.task.None? then WithStopper(s, j, Gone)
    else if TaskAlive(s) then WithStopper(s, j, AwaitingLoop(s.task.value))
    else WithStopper(s, j, Gone).(task := None)
  }

  /** What a loop does with the item it got. */
  function TakeItem(s: State, k: nat): State
    requires k < |s.loops| && s.queue != []
  {
    match s.queue[0]
    case StopSentinel => WithLoop(s, k, Stopping).(queue := s.queue[1..])
    case Publication(e) =>
      var callbacks := Matching(s.subscriptions, e.name);
      WithLoop(s, k, Dispatching(e, callbacks)).(queue := s.queue[1..], taken := s.taken + [Plan(e, callbacks)])
  }

  function Effect(capacity: nat, s: State, a: Action): State
    requires Enabled(capacity, s, a)
  {
    match a
    case Subscribe(name) =>
      s.(subscriptions := s.subscriptions + [Subscription(s.nextId, Normalize(name, true).value)],
         nextId := s.nextId + 1)
    case Unsubscribe(id) => s.(subscriptions := WithoutId(s.subscriptions, id))
    case Publish(name) =>
      var e := Event(Normalize(name, false).value, |s.accepted|);
      s.(queue := s.queue + [Publication(e)], unfinished := s.unfinished + 1, accepted := s.accepted + [e])
    case StartLoop => s.(loops := s.loops + [Waiting], task := Some(|s.loops|))
    case CallStop => if TaskAlive(s) then s.(stoppers := s.stoppers + [AwaitingIdle]) else s.(task := None)
    case IdleReached(j) => WithStopper(s, j, Released)
    case PutSentinel(j) => AwaitTask(s.(queue := s.queue + [StopSentinel], unfinished := s.unfinished + 1), j)
    case FinishStop(j) => WithStopper(s, j, Gone).(task := None)
    case Get(k) => TakeItem(s, k)
    case Invoke(k) =>
      var loop := s.loops[k];
      WithLoop(s, k, Dispatching(loop.event, loop.rest[1..])).(
        delivered := s.delivered + [Delivery(loop.rest[0].id, loop.event)])
    case TaskDone(k) =>
      WithLoop(s, k, if s.loops[k].Stopping? then Ended else Waiting).(
        unfinished := if s.unfinished > 0 then s.unfinished - 1 else 0)
  }

  function Step(capacity: nat, s: State, a: Action): State {
    if Enabled(capacity, s, a) then Effect(capacity, s, a) else s
  }

  function RunFrom(capacity: nat, s: State, actions: seq<Action>): State {
    if actions == [] then s
    else Step(capacity, RunFrom(capacity, s, actions[..|actions| - 1]), actions[|actions| - 1])
  }

  function Run(capacity: nat, actions: seq<Action>): State {
    RunFrom(capacity, INITIAL, actions)
  }

  /** The states of all runs of a bus with this capacity. */
  ghost predicate Reachable(capacity: nat, s: State) {
    exists actions :: Run(capacity, actions) == s
  }

  lemma OneStepMore(capacity: nat, s: State, actions: seq<Action>, a: Action)
    ensures RunFrom(capacity, s, actions + [a]) == Step(capacity, RunFrom(capacity, s, actions), a)
  {
    assert (actions + [a])[..|actions|] == actions;
  }

  lemma {:induction false} RunFromComposes(capacity: nat, s: State, actions: seq<Action>, more: seq<Action>)
    ensures RunFrom(capacity, s, actions + more) == RunFrom(capacity, RunFrom(capacity, s, actions), more)
  {
    if more == [] {
      assert actions + more == actions;
    } else {
      RunFromComposes(capacity, s, actions, more[..|more| - 1]);
      assert (actions + more)[..|actions + more| - 1] == actions + more[..|more| - 1];
    }
  }

  // ---------- what the histories call for ----------

  function Queued(items: seq<Item>): seq<Event> {
    if items == [] then []
    else (if items[0].Publication? then [items[0].event] else []) + Queued(items[1..])
  }

  function EventsOf(plans: seq<Plan>): seq<Event> {
    if plans == [] then [] else EventsOf(plans[..|plans| - 1]) + [plans[|plans| - 1].event]
  }

  function DeliveriesFor(e: Event, callbacks: seq<Subscription>): seq<Delivery> {
    if callbacks == [] then [] else [Delivery(callbacks[0].id, e)] + DeliveriesFor(e, callbacks[1..])
  }

  /** All deliveries the plans call for: event by event, callback by callback. */
  function Schedule(plans: seq<Plan>): seq<Delivery> {
    if plans == [] then []
    else
      var p := plans[|plans| - 1];
      Schedule(plans[..|plans| - 1]) + DeliveriesFor(p.event, p.callbacks)
  }

  /** The deliveries a loop still owes. */
  function Owed(loop: Loop): seq<Delivery> {
    if loop.Dispatching? then DeliveriesFor(loop.event, loop.rest) else []
  }

  /** A sum over the loops. */
  function Sum(loops: seq<Loop>, weight: Loop -> nat): nat {
    if loops == [] then 0 else Sum(loops[..|loops| - 1], weight) + weight(loops[|loops| - 1])
  }

  /** How often a delivery occurs. */
  function Times(ds: seq<Delivery>, d: Delivery): nat {
    multiset(ds)[d]
  }

  /** How often a loop still owes a delivery. */
  function OwedTimes(d: Delivery): Loop -> nat {
    loop => Times(Owed(loop), d)
  }

  function OwedByAll(loops: seq<Loop>, d: Delivery): nat {
    Sum(loops, OwedTimes(d))
  }

  function InFlight(loop: Loop): nat {
    if loop.Dispatching? || loop.Stopping? then 1 else 0
  }

  function InFlightCount(loops: seq<Loop>): nat {
    Sum(loops, InFlight)
  }
}
