/** The order of deliveries is kept, whatever comes, exactly as long as no start of the bus is hasty. */
module EventBusOrder {
  import opened Common
  import opened EventBusModel
  import opened EventBusSafety

  /** Nothing has been delivered before what the schedule puts first. */
  predicate InOrder(s: State) {
    s.delivered <= Schedule(s.taken)
  }

  ghost predicate StaysInOrder(capacity: nat, s: State) {
    forall more :: UnhurriedFrom(capacity, s, more) ==> InOrder(RunFrom(capacity, s, more))
  }

  /** A later state of some continuation without a hasty start. */
  ghost predicate LeadsTo(capacity: nat, s: State, later: State) {
    exists more :: UnhurriedFrom(capacity, s, more) && RunFrom(capacity, s, more) == later
  }

  lemma LeadsToItself(capacity: nat, s: State)
    ensures LeadsTo(capacity, s, s)
  {
    assert UnhurriedFrom(capacity, s, []) && RunFrom(capacity, s, []) == s;
  }

  lemma LeadsFurther(capacity: nat, s: State, mid: State, a: Action)
    requires LeadsTo(capacity, s, mid) && !Hasty(capacity, mid, a)
    ensures LeadsTo(capacity, s, Step(capacity, mid, a))
  {
    var more :| UnhurriedFrom(capacity, s, more) && RunFrom(capacity, s, more) == mid;
    OneStepMore(capacity, s, more, a);
    assert forall i :: 0 <= i <= |more| ==> (more + [a])[..i] == more[..i];
    assert UnhurriedFrom(capacity, s, more + [a]);
  }

  // ---------- two loops ----------

  /** No stop waits for the end of a loop. */
  predicate NobodyAwaits(s: State) {
    forall j :: 0 <= j < |s.stoppers| ==> !s.stoppers[j].AwaitingLoop?
  }

  /** A forgotten loop waits on the queue beside the one the task field refers to. */
  ghost predicate TwoLoops(s: State, k: nat) {
    && NobodyAwaits(s) && k < |s.loops| && s.loops[k].Waiting?
    && s.task.Some? && s.task.value < |s.loops| && s.task.value != k
  }

  /** What has been delivered is all the schedule, but for the callbacks the second loop still goes through. */
  ghost predicate Tidy(s: State, k: nat) {
    TwoLoops(s, k) && s.delivered + OwedNow(s) == Schedule(s.taken)
  }

  /** The stops from this one on that wait for a loop wait for one that has ended. */
  ghost predicate AwaitedHaveEnded(s: State, j: nat) {
    && (forall i :: 0 <= i < j && i < |s.stoppers| ==> !s.stoppers[i].AwaitingLoop?)
    && (forall i :: j <= i < |s.stoppers| && s.stoppers[i].AwaitingLoop? ==>
          s.stoppers[i].loop < |s.loops| && s.loops[s.stoppers[i].loop].Ended?)
  }

  lemma OneStopFinishes(capacity: nat, s: State, j: nat)
    requires AwaitedHaveEnded(s, j) && j < |s.stoppers| && s.stoppers[j].AwaitingLoop?
    ensures var later := Step(capacity, s, FinishStop(j));
            && later == s.(stoppers := s.stoppers[j := Gone], task := None) && AwaitedHaveEnded(later, j + 1)
            && !NobodyAwaits(s)
  {
  }

  lemma NoStopToFinish(s: State, j: nat)
    requires AwaitedHaveEnded(s, j) && j <= |s.stoppers|
    ensures j == |s.stoppers| ==> NobodyAwaits(s)
    ensures j < |s.stoppers| && !s.stoppers[j].AwaitingLoop? ==> AwaitedHaveEnded(s, j + 1)
  {
  }

  /** The stops that wait for a loop that has ended finish one by one. */
  lemma {:induction false} StopsFinish(capacity: nat, s: State, mid: State, j: nat) returns (later: State)
    requires LeadsTo(capacity, s, mid) && j <= |mid.stoppers| && AwaitedHaveEnded(mid, j)
    ensures LeadsTo(capacity, s, later) && NobodyAwaits(later)
    ensures later == mid.(stoppers := later.stoppers, task := later.task)
    ensures later.task == if NobodyAwaits(mid) then mid.task else None
    decreases |mid.stoppers| - j
  {
    NoStopToFinish(mid, j);
    if j == |mid.stoppers| {
      later := mid;
    } else if mid.stoppers[j].AwaitingLoop? {
      OneStopFinishes(capacity, mid, j);
      LeadsFurther(capacity, s, mid, FinishStop(j));
      later := StopsFinish(capacity, s, Step(capacity, mid, FinishStop(j)), j + 1);
    } else {
      later := StopsFinish(capacity, s, mid, j + 1);
    }
  }

  /** From a hasty start on, once the pending stops have finished, the next start adds a second loop. */
  lemma SecondLoop(capacity: nat, s: State) returns (later: State)
    requires Serial(s) && Hasty(capacity, s, StartLoop)
    ensures LeadsTo(capacity, Step(capacity, s, StartLoop), later)
    ensures Tidy(later, |s.loops|) && later.loops[later.task.value].Waiting?
  {
    var first := Step(capacity, s, StartLoop);
    assert forall k :: 0 <= k < |s.loops| ==> s.loops[k].Ended?;
    LeadsToItself(capacity, first);
    var settled := StopsFinish(capacity, first, first, 0);
    LeadsFurther(capacity, first, settled, StartLoop);
    later := Step(capacity, settled, StartLoop);
    assert s.delivered + [] == s.delivered == later.delivered + OwedNow(later);
  }

  // ---------- an empty queue ----------

  lemma CallMade(capacity: nat, s: State, k: nat)
    requires Tidy(s, k) && s.loops[s.task.value].Dispatching? && s.loops[s.task.value].rest != []
    ensures var b, later := s.task.value, Step(capacity, s, Invoke(s.task.value));
            && Tidy(later, k) && later.task == s.task && later.queue == s.queue
            && later.loops[b] == Dispatching(s.loops[b].event, s.loops[b].rest[1..])
  {
    var e, rest := s.loops[s.task.value].event, s.loops[s.task.value].rest;
    Associates(s.delivered, [Delivery(rest[0].id, e)], DeliveriesFor(e, rest[1..]));
  }

  lemma EventDone(capacity: nat, s: State, k: nat)
    requires Tidy(s, k) && s.loops[s.task.value].Dispatching? && s.loops[s.task.value].rest == []
    ensures var later := Step(capacity, s, TaskDone(s.task.value));
            && Tidy(later, k) && later.task == s.task && later.queue == s.queue
            && later.loops[s.task.value].Waiting?
  {
  }

  /** The second loop goes through its callbacks. */
  lemma {:induction false} CallbacksFinish(capacity: nat, s: State, mid: State, k: nat) returns (later: State)
    requires LeadsTo(capacity, s, mid) && Tidy(mid, k) && mid.loops[mid.task.value].Dispatching?
    ensures LeadsTo(capacity, s, later) && Tidy(later, k)
    ensures later.loops[later.task.value].Waiting? && later.queue == mid.queue
    decreases |mid.loops[mid.task.value].rest|
  {
    var b := mid.task.value;
    if mid.loops[b].rest == [] {
      EventDone(capacity, mid, k);
      LeadsFurther(capacity, s, mid, TaskDone(b));
      later := Step(capacity, mid, TaskDone(b));
    } else {
      CallMade(capacity, mid, k);
      LeadsFurther(capacity, s, mid, Invoke(b));
      later := CallbacksFinish(capacity, s, Step(capacity, mid, Invoke(b)), k);
    }
  }

  lemma EventTaken(capacity: nat, s: State, k: nat)
    requires Tidy(s, k) && s.loops[s.task.value].Waiting? && s.queue != [] && s.queue[0].Publication?
    ensures var later := Step(capacity, s, Get(s.task.value));
            && Tidy(later, k) && later.task == s.task && later.queue == s.queue[1..]
            && later.loops[s.task.value].Dispatching?
  {
    var e := s.queue[0].event;
    assert s.delivered + [] == s.delivered;
    TakenAppend(s.taken, Plan(e, Matching(s.subscriptions, e.name)));
  }

  /** The second loop has returned on a sentinel. */
  function Returned(s: State, b: nat): State
    requires b < |s.loops| && s.queue != []
  {
    s.(queue := s.queue[1..], loops := s.loops[b := Ended],
       unfinished := if s.unfinished > 0 then s.unfinished - 1 else 0)
  }

  lemma SentinelTaken(capacity: nat, s: State, k: nat)
    requires Tidy(s, k) && s.loops[s.task.value].Waiting? && s.queue != [] && s.queue[0].StopSentinel?
    ensures var b := s.task.value;
            Step(capacity, Step(capacity, s, Get(b)), TaskDone(b)) == Returned(s, b)
  {
    var b := s.task.value;
    assert Step(capacity, s, Get(b)) == s.(queue := s.queue[1..], loops := s.loops[b := Stopping]);
    assert s.loops[b := Stopping][b := Ended] == s.loops[b := Ended];
  }

  lemma LoopReplaced(capacity: nat, s: State, k: nat)
    requires Tidy(s, k) && s.loops[s.task.value].Waiting? && s.queue != []
    ensures var later := Step(capacity, Returned(s, s.task.value), StartLoop);
            && !Hasty(capacity, Returned(s, s.task.value), StartLoop)
            && Tidy(later, k) && later.queue == s.queue[1..] && later.loops[later.task.value].Waiting?
  {
  }

  /** The second loop takes one item; a sentinel ends it, and another start replaces it. */
  lemma OneItemLess(capacity: nat, s: State, mid: State, k: nat) returns (later: State)
    requires LeadsTo(capacity, s, mid) && Tidy(mid, k) && mid.loops[mid.task.value].Waiting? && mid.queue != []
    ensures LeadsTo(capacity, s, later) && Tidy(later, k)
    ensures later.loops[later.task.value].Waiting? && later.queue == mid.queue[1..]
  {
    var b := mid.task.value;
    var got := Step(capacity, mid, Get(b));
    LeadsFurther(capacity, s, mid, Get(b));
    if mid.queue[0].Publication? {
      EventTaken(capacity, mid, k);
      later := CallbacksFinish(capacity, s, got, k);
    } else {
      SentinelTaken(capacity, mid, k);
      LoopReplaced(capacity, mid, k);
      LeadsFurther(capacity, s, got, TaskDone(b));
      LeadsFurther(capacity, s, Returned(mid, b), StartLoop);
      later := Step(capacity, Returned(mid, b), StartLoop);
    }
  }

  lemma {:induction false} QueueEmpties(capacity: nat, s: State, mid: State, k: nat) returns (later: State)
    requires LeadsTo(capacity, s, mid) && Tidy(mid, k) && mid.loops[mid.task.value].Waiting?
    ensures LeadsTo(capacity, s, later) && Tidy(later, k)
    ensures later.loops[later.task.value].Waiting? && later.queue == []
    decreases |mid.queue|
  {
    later := mid;
    if mid.queue != [] {
      later := OneItemLess(capacity, s, mid, k);
      later := QueueEmpties(capacity, s, later, k);
    }
  }

  // ---------- out of order ----------

  /** A delivery of the second of two events, when none of the first has been made. */
  lemma SecondBeforeFirst(taken: seq<Plan>, p: Plan, q: Plan, id: nat)
    requires p.callbacks != [] && p.event != q.event
    ensures !(Schedule(taken) + [Delivery(id, q.event)] <= Schedule(taken + [p] + [q]))
  {
    TakenAppend(taken, p);
    TakenAppend(taken + [p], q);
    assert Schedule(taken + [p] + [q])[|Schedule(taken)|] == Delivery(p.callbacks[0].id, p.event);
  }

  lemma {:induction false} FilteredAppend(subs: seq<Subscription>, sub: Subscription)
    ensures Filtered(subs + [sub], sub.name) == Filtered(subs, sub.name) + [sub]
  {
    if subs == [] {
      assert [sub][1..] == [];
    } else {
      FilteredAppend(subs[1..], sub);
      assert (subs + [sub])[1..] == subs[1..] + [sub];
    }
  }

  /** Somebody subscribes. */
  lemma Subscribed(capacity: nat, s: State, mid: State, k: nat)
    requires LeadsTo(capacity, s, mid) && Tidy(mid, k)
    ensures var later := Step(capacity, mid, Subscribe("a"));
            && LeadsTo(capacity, s, later) && Tidy(later, k)
            && later == mid.(subscriptions := later.subscriptions, nextId := mid.nextId + 1)
            && Matching(later.subscriptions, "a") != []
  {
    assert Strip("a") == "a";
    LeadsFurther(capacity, s, mid, Subscribe("a"));
    FilteredAppend(mid.subscriptions, Subscription(mid.nextId, "a"));
  }

  /** An event has come and this waiting loop has taken it. */
  function Took(s: State, k: nat): State
    requires k < |s.loops|
  {
    var e, callbacks := Event("a", |s.accepted|), Matching(s.subscriptions, "a");
    s.(loops := s.loops[k := Dispatching(e, callbacks)], unfinished := s.unfinished + 1,
       accepted := s.accepted + [e], taken := s.taken + [Plan(e, callbacks)])
  }

  lemma PublishedAndTaken(capacity: nat, s: State, k: nat)
    requires k < |s.loops| && s.loops[k].Waiting? && s.queue == []
    ensures Step(capacity, Step(capacity, s, Publish("a")), Get(k)) == Took(s, k)
  {
    assert Strip("a") == "a";
    var item := Publication(Event("a", |s.accepted|));
    assert [] + [item] == [item] && [item][1..] == [];
    assert Step(capacity, s, Publish("a")) ==
           s.(queue := [item], unfinished := s.unfinished + 1, accepted := s.accepted + [item.event]);
  }

  lemma LeadsToTaken(capacity: nat, s: State, mid: State, k: nat)
    requires LeadsTo(capacity, s, mid) && k < |mid.loops| && mid.loops[k].Waiting? && mid.queue == []
    ensures LeadsTo(capacity, s, Took(mid, k))
  {
    LeadsFurther(capacity, s, mid, Publish("a"));
    LeadsFurther(capacity, s, Step(capacity, mid, Publish("a")), Get(k));
    PublishedAndTaken(capacity, mid, k);
  }

  /** The second loop to take an event is the first to call. */
  lemma OvertakenIsOutOfOrder(capacity: nat, s: State, k: nat, b: nat)
    requires k < |s.loops| && b < |s.loops| && k != b && s.delivered == Schedule(s.taken)
    requires Matching(s.subscriptions, "a") != []
    ensures !InOrder(Step(capacity, Took(Took(s, k), b), Invoke(b)))
  {
    var callbacks := Matching(s.subscriptions, "a");
    var e, f := Event("a", |s.accepted|), Event("a", |s.accepted| + 1);
    var two := Took(Took(s, k), b);
    assert two.loops[b] == Dispatching(f, callbacks);
    assert two.taken == s.taken + [Plan(e, callbacks)] + [Plan(f, callbacks)];
    SecondBeforeFirst(s.taken, Plan(e, callbacks), Plan(f, callbacks), callbacks[0].id);
  }

  /** With two loops waiting on an empty queue, two more events suffice, whatever the capacity. */
  lemma TwoLoopsBreakTheOrder(capacity: nat, s: State, mid: State, k: nat)
    requires LeadsTo(capacity, s, mid) && Tidy(mid, k) && mid.loops[mid.task.value].Waiting? && mid.queue == []
    ensures !StaysInOrder(capacity, s)
  {
    var b := mid.task.value;
    assert mid.delivered + [] == mid.delivered;
    var ready := Step(capacity, mid, Subscribe("a"));
    Subscribed(capacity, s, mid, k);
    LeadsToTaken(capacity, s, ready, k);
    LeadsToTaken(capacity, s, Took(ready, k), b);
    LeadsFurther(capacity, s, Took(Took(ready, k), b), Invoke(b));
    OvertakenIsOutOfOrder(capacity, ready, k, b);
  }

  /** A hasty start after an orderly run can be followed by deliveries out of order. */
  lemma HastyStartLosesTheOrder(capacity: nat, s: State)
    requires Serial(s) && Hasty(capacity, s, StartLoop)
    ensures !StaysInOrder(capacity, Step(capacity, s, StartLoop))
  {
    var first := Step(capacity, s, StartLoop);
    var mid := SecondLoop(capacity, s);
    mid := QueueEmpties(capacity, first, mid, |s.loops|);
    TwoLoopsBreakTheOrder(capacity, first, mid, |s.loops|);
  }

  // ---------- the condition ----------

  lemma UnhurriedRunStaysInOrder(capacity: nat, actions: seq<Action>, i: nat)
    requires Unhurried(capacity, actions) && i <= |actions|
    ensures StaysInOrder(capacity, Run(capacity, actions[..i]))
  {
    var s := Run(capacity, actions[..i]);
    assert forall m :: 0 <= m <= i ==> actions[..i][..m] == actions[..m];
    UnhurriedRunKeepsSerial(capacity, INITIAL, actions[..i]);
    forall more | UnhurriedFrom(capacity, s, more) ensures InOrder(RunFrom(capacity, s, more)) {
      UnhurriedRunKeepsSerial(capacity, s, more);
    }
  }

  /** Every point of a run keeps its deliveries in order in all continuations without a hasty start exactly if the run
      itself has no start between the end of a loop and the reset of the stop that waited for it. */
  lemma OrderIsKeptExactlyIfUnhurried(capacity: nat, actions: seq<Action>)
    ensures (forall i :: 0 <= i <= |actions| ==> StaysInOrder(capacity, Run(capacity, actions[..i])))
            <==> Unhurried(capacity, actions)
  {
    if Unhurried(capacity, actions) {
      forall i | 0 <= i <= |actions| ensures StaysInOrder(capacity, Run(capacity, actions[..i])) {
        UnhurriedRunStaysInOrder(capacity, actions, i);
      }
    } else {
      var i := FirstHastyStart(capacity, actions);
      UnhurriedRunKeepsSerial(capacity, INITIAL, actions[..i]);
      HastyStartLosesTheOrder(capacity, Run(capacity, actions[..i]));
    }
  }
}
