/** The event bus object; its dispatch loops are cut at the callbacks, stop at its awaits. */
module EventBuses {
  import opened Common
  import opened EventBusModel
  import opened EventBusSafety

  class EventBus {
    const capacity: nat
    var queue: seq<Item>
    var subscriptions: seq<Subscription>
    // The loops created so far, and the reference to the present one.
    var loops: seq<Loop>
    var dispatcherTask: Option<nat>
    // The suspended calls of stop.
    var stoppers: seq<Stopper>
    var unfinished: nat
    var nextId: nat
    var published: nat
    ghost var accepted: seq<Event>
    ghost var taken: seq<Plan>
    ghost var delivered: seq<Delivery>

    /** The invariant of the machine. */
    ghost predicate Valid()
      reads this
    {
      published == |accepted| && Inv(View())
    }

    ghost function View(): State
      reads this
    {
      State(queue, subscriptions, loops, dispatcherTask, stoppers, unfinished, nextId, accepted, taken, delivered)
    }

    constructor (capacity: nat)
      ensures this.capacity == capacity && Valid() && View() == INITIAL
    {
      this.capacity := capacity;
      queue, subscriptions, loops, dispatcherTask, stoppers, unfinished, nextId, published := [], [], [], None, [],
          0, 0, 0;
      accepted, taken, delivered := [], [], [];
    }

    method SubscribeTo(name: string) returns (id: Option<nat>)
      requires Valid()
      modifies this
      ensures Valid() && View() == Step(capacity, old(View()), Subscribe(name))
      ensures id.Some? <==> Normalize(name, true).Some?
      ensures id.Some? ==> subscriptions == old(subscriptions) + [Subscription(id.value, Normalize(name, true).value)]
    {
      StepKeeps(capacity, View(), Subscribe(name));
      var normalized := Normalize(name, true);
      if normalized.None? {
        return None;
      }
      id := Some(nextId);
      subscriptions := subscriptions + [Subscription(nextId, normalized.value)];
      nextId := nextId + 1;
    }

    method UnsubscribeFrom(id: nat) returns (known: bool)
      requires Valid()
      modifies this`subscriptions
      ensures Valid() && View() == Step(capacity, old(View()), Unsubscribe(id))
      ensures known <==> exists x :: x in old(subscriptions) && x.id == id
      ensures forall x :: x in subscriptions ==> x.id != id
      ensures !known ==> subscriptions == old(subscriptions)
      ensures known ==> exists k :: 0 <= k < |old(subscriptions)| && old(subscriptions)[k].id == id
                                    && subscriptions == old(subscriptions)[..k] + old(subscriptions)[k + 1..]
    {
      StepKeeps(capacity, View(), Unsubscribe(id));
      WithoutIdOk(subscriptions, id, nextId);
      known := exists x :: x in subscriptions && x.id == id;
      if known {
        ghost var k :| 0 <= k < |subscriptions| && subscriptions[k].id == id;
        WithoutIdCutsOne(subscriptions, id, nextId, k);
      } else {
        WithoutAbsent(subscriptions, id);
      }
      subscriptions := WithoutId(subscriptions, id);
    }

    /** False for a bad name or a full queue. */
    method PublishNowait(name: string) returns (ok: bool)
      requires Valid()
      modifies this
      ensures Valid() && View() == Step(capacity, old(View()), Publish(name))
      ensures ok <==> Normalize(name, false).Some? && HasRoom(capacity, old(queue))
    {
      StepKeeps(capacity, View(), Publish(name));
      var normalized := Normalize(name, false);
      ok := normalized.Some? && HasRoom(capacity, queue);
      if ok {
        var e := Event(normalized.value, published);
        queue := queue + [Publication(e)];
        unfinished := unfinished + 1;
        published := published + 1;
        accepted := accepted + [e];
      }
    }

    method IsTaskAlive() returns (alive: bool)
      requires Valid()
      ensures alive == TaskAlive(View())
    {
      alive := dispatcherTask.Some? && !loops[dispatcherTask.value].Ended?;
    }

    method Start()
      requires Valid()
      modifies this`loops, this`dispatcherTask
      ensures Valid() && View() == Step(capacity, old(View()), StartLoop)
    {
      StepKeeps(capacity, View(), StartLoop);
      var alive := IsTaskAlive();
      if !alive {
        dispatcherTask := Some(|loops|);
        loops := loops + [Waiting];
      }
    }

    /** stop up to its wait for idle. */
    method BeginStop()
      requires Valid()
      modifies this`stoppers, this`dispatcherTask
      ensures Valid() && View() == Step(capacity, old(View()), CallStop)
    {
      StepKeeps(capacity, View(), CallStop);
      if dispatcherTask.None? {
        return;
      }
      var alive := IsTaskAlive();
      if alive {
        stoppers := stoppers + [AwaitingIdle];
      } else {
        dispatcherTask := None;
      }
    }

    /** stop from the wait for idle, once the queue has room, up to the wait for the loop. */
    method PutStopSentinel(j: nat)
      requires Valid() && j < |stoppers| && stoppers[j].Released? && HasRoom(capacity, queue)
      modifies this
      ensures Valid() && View() == Step(capacity, old(View()), PutSentinel(j))
    {
      StepKeeps(capacity, View(), PutSentinel(j));
      var alive := IsTaskAlive();
      queue := queue + [StopSentinel];
      unfinished := unfinished + 1;
      if alive {
        stoppers := stoppers[j := AwaitingLoop(dispatcherTask.value)];
      } else {
        stoppers := stoppers[j := Gone];
        dispatcherTask := None;
      }
    }

    /** stop after the loop it waited for has returned: the reference is dropped, whatever it refers to by now. */
    method FinishStop(j: nat)
      requires Valid() && Enabled(capacity, View(), Action.FinishStop(j))
      modifies this`stoppers, this`dispatcherTask
      ensures Valid() && View() == Step(capacity, old(View()), Action.FinishStop(j))
    {
      StepKeeps(capacity, View(), Action.FinishStop(j));
      stoppers := stoppers[j := Gone];
      dispatcherTask := None;
    }

    /** A loop's get, and the choice of the callbacks for what it got. */
    method TakeNext(k: nat)
      requires Valid() && k < |loops| && loops[k].Waiting? && queue != []
      modifies this
      ensures Valid() && View() == Step(capacity, old(View()), Get(k))
    {
      StepKeeps(capacity, View(), Get(k));
      TakeItem(k);
    }

    method TakeItem(k: nat)
      requires k < |loops| && loops[k].Waiting? && queue != []
      modifies this`queue, this`loops, this`taken
      ensures View() == EventBusModel.TakeItem(old(View()), k)
    {
      var item := queue[0];
      queue := queue[1..];
      match item {
        case StopSentinel => loops := loops[k := Stopping];
        case Publication(e) =>
          var callbacks := Matching(subscriptions, e.name);
          loops := loops[k := Dispatching(e, callbacks)];
          taken := taken + [Plan(e, callbacks)];
      }
    }

    method InvokeCallback(k: nat) returns (subscriber: nat, event: Event)
      requires Valid() && k < |loops| && loops[k].Dispatching? && loops[k].rest != []
      modifies this`loops, this`delivered
      ensures Valid() && View() == Step(capacity, old(View()), Invoke(k))
      ensures subscriber == old(loops[k].rest)[0].id && event == old(loops[k].event)
    {
      StepKeeps(capacity, View(), Invoke(k));
      subscriber, event := loops[k].rest[0].id, loops[k].event;
      loops := loops[k := Dispatching(event, loops[k].rest[1..])];
      delivered := delivered + [Delivery(subscriber, event)];
    }

    method FinishItem(k: nat)
      requires Valid() && Enabled(capacity, View(), TaskDone(k))
      modifies this`loops, this`unfinished
      ensures Valid() && View() == Step(capacity, old(View()), TaskDone(k))
    {
      StepKeeps(capacity, View(), TaskDone(k));
      loops := loops[k := if loops[k].Stopping? then Ended else Waiting];
      unfinished := if unfinished > 0 then unfinished - 1 else 0;
    }
  }
}
