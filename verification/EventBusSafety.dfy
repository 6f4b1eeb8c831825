/** What the event bus keeps over every run, and what it keeps as long as it has one dispatch loop at a time. */
module EventBusSafety {
  import opened Common
  import opened EventBusModel

  ghost predicate IdsOk(subs: seq<Subscription>, bound: nat) {
    && (forall i :: 0 <= i < |subs| ==> subs[i].id < bound)
    && (forall i, j :: 0 <= i < j < |subs| ==> subs[i].id != subs[j].id)
  }

  /** Events are taken in the order of acceptance and the join counter is right, whatever the loops. */
  ghost predicate Inv(s: State) {
    && EventsOf(s.taken) + Queued(s.queue) == s.accepted
    && s.unfinished == |s.queue| + InFlightCount(s.loops)
    && (forall k :: 0 <= k < |s.accepted| ==> s.accepted[k].serial == k)
    && IdsOk(s.subscriptions, s.nextId)
    && (s.task.Some? ==> s.task.value < |s.loops|)
  }

  /** A delivery is made or owed as often as the taken events call for it. */
  predicate Balanced(s: State, d: Delivery) {
    Times(s.delivered, d) + OwedByAll(s.loops, d) == Times(Schedule(s.taken), d)
  }

  lemma {:induction false} QueuedAppend(items: seq<Item>, x: Item)
    ensures Queued(items + [x]) == Queued(items) + (if x.Publication? then [x.event] else [])
  {
    if items == [] {
      assert [x][1..] == [];
    } else {
      QueuedAppend(items[1..], x);
      assert (items + [x])[1..] == items[1..] + [x];
    }
  }

  lemma {:induction false} WithoutIdOk(subs: seq<Subscription>, id: nat, bound: nat)
    requires IdsOk(subs, bound)
    ensures IdsOk(WithoutId(subs, id), bound)
    ensures forall x :: x in WithoutId(subs, id) <==> x in subs && x.id != id
  {
    if subs != [] {
      assert IdsOk(subs[1..], bound);
      WithoutIdOk(subs[1..], id, bound);
      assert forall x :: x in subs <==> x == subs[0] || x in subs[1..];
    }
  }

  lemma {:induction false} WithoutAbsent(subs: seq<Subscription>, id: nat)
    requires forall x :: x in subs ==> x.id != id
    ensures WithoutId(subs, id) == subs
  {
    if subs != [] {
      assert subs[0] in subs && forall x :: x in subs[1..] ==> x in subs;
      WithoutAbsent(subs[1..], id);
    }
  }

  /** Ids being distinct only one subscription goes, and the others keep their order. */
  lemma {:induction false} WithoutIdCutsOne(subs: seq<Subscription>, id: nat, bound: nat, k: nat)
    requires IdsOk(subs, bound) && k < |subs| && subs[k].id == id
    ensures WithoutId(subs, id) == subs[..k] + subs[k + 1..]
  {
    var rest := subs[1..];
    if k == 0 {
      WithoutAbsent(rest, id);
    } else {
      assert IdsOk(rest, bound);
      WithoutIdCutsOne(rest, id, bound, k - 1);
      assert [subs[0]] + (rest[..k - 1] + rest[k..]) == subs[..k] + subs[k + 1..];
    }
  }

  lemma TakenAppend(plans: seq<Plan>, p: Plan)
    ensures EventsOf(plans + [p]) == EventsOf(plans) + [p.event]
    ensures Schedule(plans + [p]) == Schedule(plans) + DeliveriesFor(p.event, p.callbacks)
  {
    assert (plans + [p])[..|plans + [p]| - 1] == plans;
  }

  /** Changing one loop changes a sum over the loops by that loop's part. */
  lemma {:induction false} SumChanges(loops: seq<Loop>, k: nat, loop: Loop, weight: Loop -> nat)
    requires k < |loops|
    ensures Sum(loops[k := loop], weight) + weight(loops[k]) == Sum(loops, weight) + weight(loop)
  {
    var before, changed := loops[..|loops| - 1], loops[k := loop];
    if k < |loops| - 1 {
      SumChanges(before, k, loop, weight);
      assert changed[..|loops| - 1] == before[k := loop];
    } else {
      assert changed[..|loops| - 1] == before;
    }
  }

  lemma LoopChangesFlight(loops: seq<Loop>, k: nat, loop: Loop)
    requires k < |loops|
    ensures InFlightCount(loops[k := loop]) + InFlight(loops[k]) == InFlightCount(loops) + InFlight(loop)
  {
    SumChanges(loops, k, loop, InFlight);
  }

  lemma LoopChangesDebt(loops: seq<Loop>, k: nat, loop: Loop, d: Delivery)
    requires k < |loops|
    ensures OwedByAll(loops[k := loop], d) + Times(Owed(loops[k]), d) == OwedByAll(loops, d) + Times(Owed(loop), d)
  {
    SumChanges(loops, k, loop, OwedTimes(d));
  }

  lemma LoopAdded(loops: seq<Loop>, d: Delivery)
    ensures OwedByAll(loops + [Waiting], d) == OwedByAll(loops, d)
    ensures InFlightCount(loops + [Waiting]) == InFlightCount(loops)
  {
    assert (loops + [Waiting])[..|loops|] == loops;
  }

  lemma PublishKeeps(capacity: nat, s: State, name: string)
    requires Inv(s) && Enabled(capacity, s, Publish(name))
    ensures Inv(Effect(capacity, s, Publish(name)))
  {
    var e := Event(Normalize(name, false).value, |s.accepted|);
    QueuedAppend(s.queue, Publication(e));
    Associates(EventsOf(s.taken), Queued(s.queue), [e]);
  }

  lemma SentinelIsNoEvent(s: State)
    requires Inv(s)
    ensures Inv(s.(queue := s.queue + [StopSentinel], unfinished := s.unfinished + 1))
  {
    QueuedAppend(s.queue, StopSentinel);
    assert Queued(s.queue) + [] == Queued(s.queue);
  }

  lemma AwaitKeeps(s: State, j: nat)
    requires Inv(s) && j < |s.stoppers|
    ensures Inv(AwaitTask(s, j))
  {
  }

  lemma SentinelKeeps(capacity: nat, s: State, j: nat)
    requires Inv(s) && Enabled(capacity, s, PutSentinel(j))
    ensures Inv(Effect(capacity, s, PutSentinel(j)))
  {
    SentinelIsNoEvent(s);
    AwaitKeeps(s.(queue := s.queue + [StopSentinel], unfinished := s.unfinished + 1), j);
  }

  lemma GetKeeps(s: State, k: nat)
    requires Inv(s) && k < |s.loops| && s.loops[k].Waiting? && s.queue != []
    ensures Inv(TakeItem(s, k))
  {
    LoopChangesFlight(s.loops, k, TakeItem(s, k).loops[k]);
    if s.queue[0].Publication? {
      var e := s.queue[0].event;
      TakenAppend(s.taken, Plan(e, Matching(s.subscriptions, e.name)));
      Associates(EventsOf(s.taken), [e], Queued(s.queue[1..]));
    } else {
      assert [] + Queued(s.queue[1..]) == Queued(s.queue[1..]);
    }
  }

  lemma StepKeeps(capacity: nat, s: State, a: Action)
    requires Inv(s)
    ensures Inv(Step(capacity, s, a))
  {
    if Enabled(capacity, s, a) {
      match a
      case Unsubscribe(id) => WithoutIdOk(s.subscriptions, id, s.nextId);
      case Publish(name) => PublishKeeps(capacity, s, name);
      case PutSentinel(j) => SentinelKeeps(capacity, s, j);
      case StartLoop => LoopAdded(s.loops, Delivery(0, Event("", 0)));
      case Get(k) => GetKeeps(s, k);
      case Invoke(k) => LoopChangesFlight(s.loops, k, Dispatching(s.loops[k].event, s.loops[k].rest[1..]));
      case TaskDone(k) => LoopChangesFlight(s.loops, k, if s.loops[k].Stopping? then Ended else Waiting);
      case _ =>
    }
  }

  lemma GetKeepsBalance(s: State, k: nat, d: Delivery)
    requires Balanced(s, d) && k < |s.loops| && s.loops[k].Waiting? && s.queue != []
    ensures Balanced(TakeItem(s, k), d)
  {
    LoopChangesDebt(s.loops, k, TakeItem(s, k).loops[k], d);
    if s.queue[0].Publication? {
      var e := s.queue[0].event;
      TakenAppend(s.taken, Plan(e, Matching(s.subscriptions, e.name)));
    }
  }

  lemma InvokeKeepsBalance(capacity: nat, s: State, k: nat, d: Delivery)
    requires Balanced(s, d) && Enabled(capacity, s, Invoke(k))
    ensures Balanced(Effect(capacity, s, Invoke(k)), d)
  {
    var loop := s.loops[k];
    LoopChangesDebt(s.loops, k, Dispatching(loop.event, loop.rest[1..]), d);
  }

  lemma StepKeepsBalance(capacity: nat, s: State, a: Action, d: Delivery)
    requires Balanced(s, d)
    ensures Balanced(Step(capacity, s, a), d)
  {
    if Enabled(capacity, s, a) {
      match a
      case StartLoop => LoopAdded(s.loops, d);
      case Get(k) => GetKeepsBalance(s, k, d);
      case Invoke(k) => InvokeKeepsBalance(capacity, s, k, d);
      case TaskDone(k) => DoneKeepsBalance(capacity, s, k, d);
      case _ => OthersKeepBalance(capacity, s, a);
    }
  }

  lemma DoneKeepsBalance(capacity: nat, s: State, k: nat, d: Delivery)
    requires Balanced(s, d) && Enabled(capacity, s, TaskDone(k))
    ensures Balanced(Effect(capacity, s, TaskDone(k)), d)
  {
    LoopChangesDebt(s.loops, k, if s.loops[k].Stopping? then Ended else Waiting, d);
  }

  lemma OthersKeepBalance(capacity: nat, s: State, a: Action)
    requires Enabled(capacity, s, a) && !a.StartLoop? && !a.Get? && !a.Invoke? && !a.TaskDone?
    ensures var later := Effect(capacity, s, a);
            later.loops == s.loops && later.delivered == s.delivered && later.taken == s.taken
  {
  }

  lemma {:induction false} RunFromKeeps(capacity: nat, s: State, actions: seq<Action>)
    requires Inv(s)
    ensures Inv(RunFrom(capacity, s, actions))
  {
    if actions != [] {
      var before := actions[..|actions| - 1];
      RunFromKeeps(capacity, s, before);
      StepKeeps(capacity, RunFrom(capacity, s, before), actions[|actions| - 1]);
    }
  }

  lemma {:induction false} RunKeepsBalance(capacity: nat, actions: seq<Action>, d: Delivery)
    ensures Balanced(Run(capacity, actions), d)
  {
    if actions != [] {
      var before := actions[..|actions| - 1];
      RunKeepsBalance(capacity, before, d);
      StepKeepsBalance(capacity, Run(capacity, before), actions[|actions| - 1], d);
    }
  }

  lemma ReachableKeeps(capacity: nat, s: State)
    requires Reachable(capacity, s)
    ensures Inv(s) && forall d :: Balanced(s, d)
  {
    var actions :| Run(capacity, actions) == s;
    RunFromKeeps(capacity, INITIAL, actions);
    forall d ensures Balanced(s, d) {
      RunKeepsBalance(capacity, actions, d);
    }
  }

  /** In every reachable state accepted events have been taken in the order of acceptance, each once and none lost, and
      every delivery has been made, or is still owed by some loop, exactly as often as the taken events call for it. */
  lemma NothingIsLost(capacity: nat, s: State)
    requires Reachable(capacity, s)
    ensures EventsOf(s.taken) + Queued(s.queue) == s.accepted
    ensures forall k :: 0 <= k < |s.accepted| ==> s.accepted[k].serial == k
    ensures forall d :: Balanced(s, d)
  {
    ReachableKeeps(capacity, s);
  }

  // ---------- names, capacity, stopping ----------

  /** A name is refused exactly if it is blank, or if it is the bare wildcard and that is not allowed; else it is kept
      without outer blanks. */
  lemma NamesAreNormalizedExactly(name: string, allowWildcard: bool)
    ensures var normal := Normalize(name, allowWildcard);
            && (normal == None <==> Strip(name) == "" || (name == "*" && !allowWildcard))
            && (normal.Some? ==> normal.value == Strip(name) && normal.value != "")
  {
    assert Strip("*") == "*";
  }

  lemma QueueStaysBounded(capacity: nat, s: State, a: Action)
    requires |s.queue| <= capacity && capacity > 0
    ensures |Step(capacity, s, a).queue| <= capacity
  {
  }

  /** A bounded queue never holds more than its capacity. */
  lemma {:induction false} QueueIsBounded(capacity: nat, actions: seq<Action>)
    requires capacity > 0
    ensures |Run(capacity, actions).queue| <= capacity
  {
    if actions != [] {
      var before := actions[..|actions| - 1];
      QueueIsBounded(capacity, before);
      QueueStaysBounded(capacity, Run(capacity, before), actions[|actions| - 1]);
    }
  }

  /** An event is accepted exactly if its name is good and an unbounded or not yet full queue takes it; then it is the
      last in the queue, under the stripped name. */
  lemma EventsAreAcceptedExactly(capacity: nat, s: State, name: string)
    ensures var later := Step(capacity, s, Publish(name));
            var good := Strip(name) != "" && name != "*" && (capacity == 0 || |s.queue| < capacity);
            && (!good ==> later == s)
            && (good ==> later.accepted == s.accepted + [Event(Strip(name), |s.accepted|)]
                         && later.queue == s.queue + [Publication(Event(Strip(name), |s.accepted|))])
  {
    NamesAreNormalizedExactly(name, false);
  }

  /** A stop has nothing to wait for unless a loop is alive: it drops the reference to a dead one at once, at its
      beginning or after its sentinel, and waits only for a live one. */
  lemma StopWaitsExactlyForALiveLoop(capacity: nat, s: State, j: nat)
    ensures var called := Step(capacity, s, CallStop);
            && (TaskAlive(s) ==> called == s.(stoppers := s.stoppers + [AwaitingIdle]))
            && (!TaskAlive(s) ==> called.stoppers == s.stoppers && called.task == None)
    ensures Enabled(capacity, s, PutSentinel(j)) ==>
              var put := Step(capacity, s, PutSentinel(j));
              && put.queue == s.queue + [StopSentinel]
              && (TaskAlive(s) ==> put.stoppers[j] == AwaitingLoop(s.task.value) && put.task == s.task)
              && (!TaskAlive(s) ==> put.stoppers[j] == Gone && put.task == None)
  {
  }

  // ---------- idle waiting ----------

  /** When wait_until_idle may return: at once without a task, else when the queue's join is released. */
  predicate IdleWaitReturns(s: State) {
    s.task.None? || s.unfinished == 0
  }

  ghost predicate Quiescent(s: State) {
    s.queue == [] && forall k :: 0 <= k < |s.loops| ==> InFlight(s.loops[k]) == 0
  }

  lemma {:induction false} NoneInFlight(loops: seq<Loop>)
    ensures InFlightCount(loops) == 0 <==> forall k :: 0 <= k < |loops| ==> InFlight(loops[k]) == 0
  {
    if loops != [] {
      var before := loops[..|loops| - 1];
      NoneInFlight(before);
      assert forall k :: 0 <= k < |before| ==> before[k] == loops[k];
    }
  }

  lemma {:induction false} NothingOwed(loops: seq<Loop>, d: Delivery)
    requires forall k :: 0 <= k < |loops| ==> InFlight(loops[k]) == 0
    ensures OwedByAll(loops, d) == 0
  {
    if loops != [] {
      assert forall k :: 0 <= k < |loops| - 1 ==> loops[..|loops| - 1][k] == loops[k];
      NothingOwed(loops[..|loops| - 1], d);
    }
  }

  /** An idle wait that may return finds every accepted event taken and every callback called, exactly unless the task
      field is empty while something is queued or in flight. */
  lemma IdleWaitIsAccurate(capacity: nat, s: State)
    requires Reachable(capacity, s) && IdleWaitReturns(s)
    ensures Quiescent(s) <==> !(s.task.None? && s.unfinished > 0)
    ensures Quiescent(s) ==> EventsOf(s.taken) == s.accepted
    ensures Quiescent(s) ==> forall d :: Times(s.delivered, d) == Times(Schedule(s.taken), d)
  {
    ReachableKeeps(capacity, s);
    NoneInFlight(s.loops);
    if Quiescent(s) {
      assert EventsOf(s.taken) + [] == EventsOf(s.taken);
      forall d ensures Times(s.delivered, d) == Times(Schedule(s.taken), d) {
        assert Balanced(s, d);
        NothingOwed(s.loops, d);
      }
    }
  }

  // ---------- one loop at a time ----------

  /** A stop is between the end of the loop it waited for and its reset of the task field. */
  predicate ResetPending(s: State) {
    exists j :: 0 <= j < |s.stoppers| && s.stoppers[j].AwaitingLoop?
                && s.stoppers[j].loop < |s.loops| && s.loops[s.stoppers[j].loop].Ended?
  }

  /** A loop lives that the task field does not refer to. */
  predicate Forgotten(s: State) {
    exists k :: 0 <= k < |s.loops| && !s.loops[k].Ended? && s.task != Some(k)
  }

  ghost predicate OneLoop(s: State) {
    && !Forgotten(s)
    && (ResetPending(s) ==> !TaskAlive(s))
    && (forall j :: 0 <= j < |s.stoppers| && s.stoppers[j].AwaitingLoop? ==> s.stoppers[j].loop < |s.loops|)
  }

  /** The deliveries owed by the one loop. */
  function OwedNow(s: State): seq<Delivery> {
    if TaskAlive(s) then Owed(s.loops[s.task.value]) else []
  }

  ghost predicate Serial(s: State) {
    OneLoop(s) && s.delivered + OwedNow(s) == Schedule(s.taken)
  }

  /** A start that creates a loop while a reset is pending. */
  predicate Hasty(capacity: nat, s: State, a: Action) {
    a.StartLoop? && Enabled(capacity, s, a) && ResetPending(s)
  }

  /** No start comes between the end of a loop and the reset that follows it. */
  ghost predicate UnhurriedFrom(capacity: nat, s: State, more: seq<Action>) {
    forall i :: 0 <= i < |more| ==> !Hasty(capacity, RunFrom(capacity, s, more[..i]), more[i])
  }

  ghost predicate Unhurried(capacity: nat, actions: seq<Action>) {
    UnhurriedFrom(capacity, INITIAL, actions)
  }

  lemma StopKeepsOneLoop(capacity: nat, s: State, a: Action)
    requires OneLoop(s) && Enabled(capacity, s, a)
    requires a.CallStop? || a.IdleReached? || a.PutSentinel? || a.FinishStop?
    ensures OneLoop(Effect(capacity, s, a)) && OwedNow(Effect(capacity, s, a)) == OwedNow(s)
  {
  }

  lemma StartKeepsOneLoop(s: State)
    requires OneLoop(s) && !TaskAlive(s) && !ResetPending(s)
    ensures OneLoop(s.(loops := s.loops + [Waiting], task := Some(|s.loops|)))
  {
  }

  lemma LoopKeepsOneLoop(s: State, k: nat, loop: Loop)
    requires OneLoop(s) && k < |s.loops| && !s.loops[k].Ended?
    ensures OneLoop(WithLoop(s, k, loop)) && s.task == Some(k)
    ensures OwedNow(WithLoop(s, k, loop)) == Owed(loop) && OwedNow(s) == Owed(s.loops[k])
  {
    var later := WithLoop(s, k, loop);
    assert s.task == Some(k);
    forall m | 0 <= m < |later.loops| && !later.loops[m].Ended? ensures later.task == Some(m) {
      assert m != k ==> !s.loops[m].Ended?;
    }
    assert !ResetPending(s);
    forall j | 0 <= j < |s.stoppers| && s.stoppers[j].AwaitingLoop? && !loop.Ended?
      ensures !later.loops[s.stoppers[j].loop].Ended?
    {
      assert !s.loops[s.stoppers[j].loop].Ended?;
    }
  }

  lemma GetKeepsSerial(s: State, k: nat)
    requires Serial(s) && k < |s.loops| && s.loops[k].Waiting? && s.queue != []
    ensures Serial(TakeItem(s, k))
  {
    assert s.delivered + [] == s.delivered;
    if s.queue[0].Publication? {
      var e := s.queue[0].event;
      var callbacks := Matching(s.subscriptions, e.name);
      LoopKeepsOneLoop(s, k, Dispatching(e, callbacks));
      TakenAppend(s.taken, Plan(e, callbacks));
    } else {
      LoopKeepsOneLoop(s, k, Stopping);
    }
  }

  lemma InvokeKeepsSerial(capacity: nat, s: State, k: nat)
    requires Serial(s) && Enabled(capacity, s, Invoke(k))
    ensures Serial(Effect(capacity, s, Invoke(k)))
  {
    var loop := s.loops[k];
    LoopKeepsOneLoop(s, k, Dispatching(loop.event, loop.rest[1..]));
    Associates(s.delivered, [Delivery(loop.rest[0].id, loop.event)], DeliveriesFor(loop.event, loop.rest[1..]));
  }

  lemma DoneKeepsSerial(capacity: nat, s: State, k: nat)
    requires Serial(s) && Enabled(capacity, s, TaskDone(k))
    ensures Serial(Effect(capacity, s, TaskDone(k)))
  {
    LoopKeepsOneLoop(s, k, if s.loops[k].Stopping? then Ended else Waiting);
  }

  lemma StepKeepsSerial(capacity: nat, s: State, a: Action)
    requires Serial(s) && !Hasty(capacity, s, a)
    ensures Serial(Step(capacity, s, a))
  {
    if Enabled(capacity, s, a) {
      match a
      case StartLoop => StartKeepsOneLoop(s);
      case CallStop => StopKeepsOneLoop(capacity, s, a);
      case IdleReached(_) => StopKeepsOneLoop(capacity, s, a);
      case PutSentinel(_) => StopKeepsOneLoop(capacity, s, a);
      case FinishStop(_) => StopKeepsOneLoop(capacity, s, a);
      case Get(k) => GetKeepsSerial(s, k);
      case Invoke(k) => InvokeKeepsSerial(capacity, s, k);
      case TaskDone(k) => DoneKeepsSerial(capacity, s, k);
      case _ =>
    }
  }

  lemma {:induction false} UnhurriedRunKeepsSerial(capacity: nat, s: State, more: seq<Action>)
    requires Serial(s) && UnhurriedFrom(capacity, s, more)
    ensures Serial(RunFrom(capacity, s, more))
  {
    if more != [] {
      var before := more[..|more| - 1];
      assert forall i :: 0 <= i <= |before| ==> before[..i] == more[..i];
      UnhurriedRunKeepsSerial(capacity, s, before);
      StepKeepsSerial(capacity, RunFrom(capacity, s, before), more[|more| - 1]);
    }
  }

  /** In a run without a hasty start the deliveries made so far are a prefix of the schedule, short of what the one loop
      still owes: all callbacks of one event, in the order chosen, before those of the next. */
  lemma DeliveryIsFifo(capacity: nat, actions: seq<Action>)
    requires Unhurried(capacity, actions)
    ensures var s := Run(capacity, actions);
            && s.delivered + OwedNow(s) == Schedule(s.taken)
            && !Forgotten(s)
  {
    UnhurriedRunKeepsSerial(capacity, INITIAL, actions);
  }

  /** In a run without a hasty start an idle wait that may return finds everything done exactly unless it found no
      dispatch loop to wait for although something is queued. */
  lemma IdleWaitIsAccurateExactly(capacity: nat, actions: seq<Action>)
    requires Unhurried(capacity, actions) && IdleWaitReturns(Run(capacity, actions))
    ensures var s := Run(capacity, actions);
            Quiescent(s) <==> s.task.Some? || s.queue == []
  {
    RunFromKeeps(capacity, INITIAL, actions);
    UnhurriedRunKeepsSerial(capacity, INITIAL, actions);
    SerialIdleWait(Run(capacity, actions));
  }

  lemma SerialIdleWait(s: State)
    requires Inv(s) && OneLoop(s) && IdleWaitReturns(s)
    ensures Quiescent(s) <==> s.task.Some? || s.queue == []
  {
    NoneInFlight(s.loops);
    if s.task.None? {
      assert forall k :: 0 <= k < |s.loops| ==> s.loops[k].Ended?;
    }
  }

  /** No start. */
  ghost predicate StartsNothing(more: seq<Action>) {
    forall a :: a in more ==> !a.StartLoop?
  }

  /** A hasty start's loop is forgotten by the pending reset. */
  lemma HastyStartIsForgotten(capacity: nat, s: State)
    requires Hasty(capacity, s, StartLoop)
    ensures exists j :: Forgotten(RunFrom(capacity, Step(capacity, s, StartLoop), [FinishStop(j)]))
  {
    var j :| 0 <= j < |s.stoppers| && s.stoppers[j].AwaitingLoop?
             && s.stoppers[j].loop < |s.loops| && s.loops[s.stoppers[j].loop].Ended?;
    var started := Step(capacity, s, StartLoop);
    OneStepMore(capacity, started, [], FinishStop(j));
    assert [] + [FinishStop(j)] == [FinishStop(j)];
    var later := Step(capacity, started, FinishStop(j));
    assert !later.loops[|s.loops|].Ended? && later.task != Some(|s.loops|);
  }

  /** At no point of the run can its calls of stop, finishing, leave a loop behind that the task field has forgotten. */
  ghost predicate NeverForgets(capacity: nat, actions: seq<Action>) {
    forall i, more :: 0 <= i <= |actions| && StartsNothing(more) ==>
      !Forgotten(RunFrom(capacity, Run(capacity, actions[..i]), more))
  }

  predicate HastyAt(capacity: nat, actions: seq<Action>, i: nat) {
    i < |actions| && Hasty(capacity, Run(capacity, actions[..i]), actions[i])
  }

  lemma {:induction false} FirstHastyIndex(capacity: nat, actions: seq<Action>, n: nat) returns (i: nat)
    requires HastyAt(capacity, actions, n)
    ensures HastyAt(capacity, actions, i) && forall m :: 0 <= m < i ==> !HastyAt(capacity, actions, m)
  {
    i := n;
    if m :| 0 <= m < n && HastyAt(capacity, actions, m) {
      i := FirstHastyIndex(capacity, actions, m);
    }
  }

  lemma UnhurriedSoFar(capacity: nat, actions: seq<Action>, i: nat)
    requires i <= |actions| && forall m :: 0 <= m < i ==> !HastyAt(capacity, actions, m)
    ensures Unhurried(capacity, actions[..i])
  {
    forall m | 0 <= m < i ensures !Hasty(capacity, Run(capacity, actions[..i][..m]), actions[..i][m]) {
      assert actions[..i][..m] == actions[..m];
      assert !HastyAt(capacity, actions, m);
    }
  }

  lemma FirstHastyStart(capacity: nat, actions: seq<Action>) returns (i: nat)
    requires !Unhurried(capacity, actions)
    ensures i < |actions| && Unhurried(capacity, actions[..i])
    ensures Hasty(capacity, Run(capacity, actions[..i]), actions[i])
    ensures Run(capacity, actions[..i + 1]) == Step(capacity, Run(capacity, actions[..i]), StartLoop)
  {
    var n :| 0 <= n < |actions| && Hasty(capacity, Run(capacity, actions[..n]), actions[n]);
    i := FirstHastyIndex(capacity, actions, n);
    UnhurriedSoFar(capacity, actions, i);
    OneStepMore(capacity, INITIAL, actions[..i], StartLoop);
    assert actions[..i + 1] == actions[..i] + [StartLoop];
  }

  lemma UnhurriedNeverForgets(capacity: nat, actions: seq<Action>, i: nat, more: seq<Action>)
    requires Unhurried(capacity, actions) && i <= |actions| && StartsNothing(more)
    ensures !Forgotten(RunFrom(capacity, Run(capacity, actions[..i]), more))
  {
    assert forall m :: 0 <= m <= i ==> actions[..i][..m] == actions[..m];
    UnhurriedRunKeepsSerial(capacity, INITIAL, actions[..i]);
    assert forall m :: 0 <= m < |more| ==> more[m] in more;
    UnhurriedRunKeepsSerial(capacity, Run(capacity, actions[..i]), more);
  }

  lemma HastyRunForgets(capacity: nat, actions: seq<Action>)
    requires !Unhurried(capacity, actions)
    ensures exists i, more :: 0 <= i <= |actions| && StartsNothing(more)
                              && Forgotten(RunFrom(capacity, Run(capacity, actions[..i]), more))
  {
    var i := FirstHastyStart(capacity, actions);
    HastyStartIsForgotten(capacity, Run(capacity, actions[..i]));
    var j :| Forgotten(RunFrom(capacity, Run(capacity, actions[..i + 1]), [FinishStop(j)]));
    assert StartsNothing([FinishStop(j)]);
  }

  /** The bus has one loop at a time and never forgets it exactly if no start comes between the end of a loop and the
      reset of the stop that waited for it. */
  lemma OneLoopExactlyIfUnhurried(capacity: nat, actions: seq<Action>)
    ensures NeverForgets(capacity, actions) <==> Unhurried(capacity, actions)
  {
    if Unhurried(capacity, actions) {
      forall i, more | 0 <= i <= |actions| && StartsNothing(more)
        ensures !Forgotten(RunFrom(capacity, Run(capacity, actions[..i]), more))
      {
        UnhurriedNeverForgets(capacity, actions, i, more);
      }
    } else {
      HastyRunForgets(capacity, actions);
    }
  }
}
