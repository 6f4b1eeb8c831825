/** Which queued task is dispatched next. */
module TaskScoring {
  import opened Common
  import opened TaskStatus
  import opened TaskQueues
  import opened StableSort

  datatype Weights = Weights(priority: real, recency: real, proximity: real, bonus: real)

  /** What the configuration section insists on. */
  predicate ValidWeights(w: Weights) {
    w.priority >= 0.0 && w.recency >= 0.0 && w.proximity >= 0.0 && w.bonus >= 0.0
  }

  const DEFAULT_WEIGHTS := Weights(100.0, 10.0, 20.0, 50.0)

  /** A queued task as the scoring sees it: its row, the clock when it is scored, and the distance if both the robot's
      and the station's position are known. */
  datatype Candidate = Candidate(id: TaskId, record: Record, scoredAt: Time, distance: Option<real>)

  /** One over a quantity clamped from below at one. */
  function Nearness(x: real): (r: real)
    ensures 0.0 < r <= 1.0
    ensures x <= 1.0 ==> r == 1.0
  {
    assert Max(x, 1.0) > 0.0;
    1.0 / Max(x, 1.0)
  }

  function Recency(c: Candidate): real {
    Nearness(Max(c.scoredAt - c.record.createdAt, 0.0))
  }

  function Proximity(c: Candidate): real {
    if c.distance.Some? then Nearness(c.distance.value) else 0.0
  }

  function Bonus(w: Weights, last: Option<string>, c: Candidate): real {
    if last == Some(c.record.destination) then w.bonus else 0.0
  }

  /** A weighted component. */
  function Term(weight: real, component: real): (r: real)
    ensures weight >= 0.0 && 0.0 <= component <= 1.0 ==> 0.0 <= r <= weight
  {
    ProductBounds(weight, component);
    weight * component
  }

  lemma ProductBounds(a: real, x: real)
    ensures a >= 0.0 && 0.0 <= x <= 1.0 ==> 0.0 <= a * x <= a
  {
  }

  function Score(w: Weights, last: Option<string>, c: Candidate): real {
    Term(w.priority, c.record.priority as real) + Term(w.recency, Recency(c)) + Term(w.proximity, Proximity(c))
    + Bonus(w, last, c)
  }

  /** The order in which the database returns queued tasks. */
  predicate Precedes(a: Record, b: Record) {
    a.priority > b.priority || (a.priority == b.priority && a.createdAt <= b.createdAt)
  }

  /** The rows of the query for queued tasks, each queued task once and in the query's order. */
  ghost predicate IsQuery(table: map<TaskId, Record>, cs: seq<Candidate>) {
    && (forall i, j :: 0 <= i < j < |cs| ==> cs[i].id != cs[j].id && Precedes(cs[i].record, cs[j].record))
    && (forall c :: c in cs ==> c.id in table && table[c.id] == c.record && c.record.status == Queued)
    && (forall id :: id in table && table[id].status == Queued ==> exists c :: c in cs && c.id == id)
  }

  /** The clock is read for one task after the other. */
  ghost predicate ScoredInTurn(cs: seq<Candidate>) {
    forall i, j :: 0 <= i < j < |cs| ==> cs[i].scoredAt <= cs[j].scoredAt
  }

  ghost predicate ScoredAtOnce(cs: seq<Candidate>) {
    forall i, j :: 0 <= i < j < |cs| ==> cs[i].scoredAt == cs[j].scoredAt
  }

  function Ranked(w: Weights, last: Option<string>, cs: seq<Candidate>): seq<Candidate> {
    SortBy(cs, c => -Score(w, last, c))
  }

  function Next(w: Weights, last: Option<string>, cs: seq<Candidate>): Option<Candidate> {
    var ranked := Ranked(w, last, cs);
    if ranked == [] then None else Some(ranked[0])
  }

  /** The first candidate, in database order, with the maximum score. */
  ghost predicate IsFirstMaximum(w: Weights, last: Option<string>, cs: seq<Candidate>, i: nat) {
    && i < |cs|
    && (forall j :: 0 <= j < |cs| ==> Score(w, last, cs[j]) <= Score(w, last, cs[i]))
    && (forall j :: 0 <= j < i ==> Score(w, last, cs[j]) < Score(w, last, cs[i]))
  }

  /** From a queue that is not empty the selected task is the first with the maximum score. */
  lemma NextHasMaximumScore(w: Weights, last: Option<string>, cs: seq<Candidate>)
    requires cs != []
    ensures exists i :: 0 <= i < |cs| && Next(w, last, cs) == Some(cs[i]) && IsFirstMaximum(w, last, cs, i)
  {
    var key := c => -Score(w, last, c);
    FirstOfSorted(cs, key);
    var i :| 0 <= i < |cs| && SortBy(cs, key)[0] == cs[i]
             && (forall j :: 0 <= j < |cs| ==> key(cs[i]) <= key(cs[j]))
             && (forall j :: 0 <= j < i ==> key(cs[i]) < key(cs[j]));
    assert forall j :: 0 <= j < |cs| ==> Score(w, last, cs[j]) == -key(cs[j]);
    assert IsFirstMaximum(w, last, cs, i);
  }

  lemma ProductGrows(a: real, x: real, y: real)
    requires a >= 0.0 && x <= y
    ensures a * x <= a * y
  {
    assert a * (y - x) >= 0.0;
  }

  /** What everything but the priority can add to a score. */
  lemma ScoreBounds(w: Weights, last: Option<string>, c: Candidate)
    requires ValidWeights(w)
    ensures var base := Term(w.priority, c.record.priority as real);
            base <= Score(w, last, c) <= base + w.recency + w.proximity + w.bonus
  {
  }

  /** One level of priority outweighs everything else. */
  predicate PriorityDominates(w: Weights) {
    w.priority >= w.recency + w.proximity + w.bonus
  }

  lemma Distributes(a: real, x: real, y: real)
    ensures Term(a, x + 1.0 + y) == Term(a, x) + a + a * y
  {
  }

  lemma OneLevelMore(weight: real, low: real, high: real)
    requires weight >= 0.0 && low + 1.0 <= high
    ensures Term(weight, high) >= Term(weight, low) + weight
  {
    var more := high - low - 1.0;
    ProductGrows(weight, 0.0, more);
    Distributes(weight, low, more);
    assert high == low + 1.0 + more;
  }

  lemma HigherPriorityScoresNoLess(w: Weights, last: Option<string>, high: Candidate, low: Candidate)
    requires ValidWeights(w) && PriorityDominates(w) && high.record.priority > low.record.priority
    ensures Score(w, last, high) >= Score(w, last, low)
  {
    ScoreBounds(w, last, high);
    ScoreBounds(w, last, low);
    OneLevelMore(w.priority, low.record.priority as real, high.record.priority as real);
  }

  /** The selected task is a queued one, and no queued task has a higher priority. */
  ghost predicate SelectsByPriority(w: Weights, q: Queue, cs: seq<Candidate>) {
    forall id :: id in q.table && q.table[id].status == Queued ==>
      && Next(w, q.lastDestination, cs).Some?
      && Next(w, q.lastDestination, cs).value in cs
      && q.table[id].priority <= Next(w, q.lastDestination, cs).value.record.priority
  }

  lemma DominanceSelectsByPriority(w: Weights, q: Queue, cs: seq<Candidate>)
    requires ValidWeights(w) && PriorityDominates(w) && IsQuery(q.table, cs)
    ensures SelectsByPriority(w, q, cs)
  {
    if cs != [] {
      var last := q.lastDestination;
      NextHasMaximumScore(w, last, cs);
      var i :| 0 <= i < |cs| && Next(w, last, cs) == Some(cs[i]) && IsFirstMaximum(w, last, cs, i);
      forall j | 0 <= j < |cs| ensures cs[j].record.priority <= cs[i].record.priority {
        if j > i {
          assert Precedes(cs[i].record, cs[j].record);
        } else if cs[j].record.priority > cs[i].record.priority {
          HigherPriorityScoresNoLess(w, last, cs[j], cs[i]);
        }
      }
    }
  }

  /** With age the recency term falls below any slack. */
  lemma RecencyFallsBelow(recency: real, slack: real, age: real)
    requires recency >= 0.0 && slack > 0.0 && age == 2.0 * recency / slack
    ensures Term(recency, Nearness(Max(age, 0.0))) < slack
  {
    var clamped := Max(Max(age, 0.0), 1.0);
    var term := recency * (1.0 / clamped);
    assert term * clamped == recency;
    assert age * slack == 2.0 * recency;
    ProductGrows(slack, age, clamped);
    assert clamped * (slack - 2.0 * term) >= 0.0;
    assert slack - 2.0 * term >= 0.0 by {
      NotNegative(clamped, slack - 2.0 * term);
    }
  }

  lemma NotNegative(a: real, x: real)
    requires a > 0.0 && a * x >= 0.0
    ensures x >= 0.0
  {
  }

  const SERVED := TaskId("served")
  const URGENT := TaskId("urgent")
  const NEARBY := TaskId("nearby")

  /** How long the urgent task has waited when the other one comes in. */
  function RivalAge(w: Weights): real {
    var slack := w.recency + w.proximity + w.bonus - w.priority;
    if slack > 0.0 then 2.0 * w.recency / slack else 0.0
  }

  /** A task is served to a destination; then an urgent one to elsewhere is submitted, and much later one of lower
      priority to that destination. */
  function RivalHistory(age: real): seq<Op> {
    [ Submit(SERVED, "s", "here", 0, None, 0.0),
      Move(SERVED, Dispatched, None, 0.0), Move(SERVED, AwaitingLoad, None, 0.0), Move(SERVED, InTransit, None, 0.0),
      Move(SERVED, AwaitingUnload, None, 0.0), Move(SERVED, Completed, None, 0.0),
      Submit(URGENT, "s", "there", 1, None, 0.0), Submit(NEARBY, "t", "here", 0, None, age) ]
  }

  const SERVED_RECORD := Record("s", "here", 0, Completed, 0.0, Some(0.0), Some(0.0), None)
  const URGENT_RECORD := Record("s", "there", 1, Queued, 0.0, None, None, None)

  function NearbyRecord(age: real): Record {
    Record("t", "here", 0, Queued, age, None, None, None)
  }

  lemma RunOneMore(ops: seq<Op>, op: Op)
    ensures Run(ops + [op]) == Apply(Run(ops), op)
  {
    assert (ops + [op])[..|ops|] == ops;
  }

  lemma UnderWayHistory(age: real)
    ensures Run(RivalHistory(age)[..3]) ==
              Queue(map[SERVED := SERVED_RECORD.(status := AwaitingLoad, completedAt := None)], None)
  {
    var h := RivalHistory(age);
    var r := SERVED_RECORD.(status := Queued, dispatchedAt := None, completedAt := None);
    assert h[..1] == [] + [h[0]] && h[..2] == h[..1] + [h[1]] && h[..3] == h[..2] + [h[2]];
    RunOneMore([], h[0]);
    assert Run(h[..1]) == Queue(map[SERVED := r], None);
    RunOneMore(h[..1], h[1]);
    assert Run(h[..2]) == Queue(map[SERVED := r.(status := Dispatched, dispatchedAt := Some(0.0))], None);
    RunOneMore(h[..2], h[2]);
  }

  lemma ServedHistory(age: real)
    ensures Run(RivalHistory(age)[..6]) == Queue(map[SERVED := SERVED_RECORD], Some("here"))
  {
    var h := RivalHistory(age);
    var r := SERVED_RECORD.(completedAt := None);
    UnderWayHistory(age);
    assert h[..4] == h[..3] + [h[3]] && h[..5] == h[..4] + [h[4]] && h[..6] == h[..5] + [h[5]];
    RunOneMore(h[..3], h[3]);
    assert Run(h[..4]) == Queue(map[SERVED := r.(status := InTransit)], None);
    RunOneMore(h[..4], h[4]);
    assert Run(h[..5]) == Queue(map[SERVED := r.(status := AwaitingUnload)], None);
    RunOneMore(h[..5], h[5]);
  }

  lemma RivalQueue(age: real)
    ensures Run(RivalHistory(age)) ==
              Queue(map[SERVED := SERVED_RECORD, URGENT := URGENT_RECORD, NEARBY := NearbyRecord(age)], Some("here"))
  {
    var h := RivalHistory(age);
    ServedHistory(age);
    assert h[..7] == h[..6] + [h[6]] && h == h[..7] + [h[7]];
    RunOneMore(h[..6], h[6]);
    assert Run(h[..7]) == Queue(map[SERVED := SERVED_RECORD, URGENT := URGENT_RECORD], Some("here"));
    RunOneMore(h[..7], h[7]);
  }

  /** The two queued tasks, scored when the second one comes in: the distance of the first is unknown, the robot stands
      at the station of the second. */
  function Rivals(age: real): seq<Candidate> {
    [Candidate(URGENT, URGENT_RECORD, age, None), Candidate(NEARBY, NearbyRecord(age), age, Some(0.0))]
  }

  lemma RivalsAreQueried(age: real)
    ensures IsQuery(Run(RivalHistory(age)).table, Rivals(age))
    ensures ScoredAtOnce(Rivals(age)) && ScoredInTurn(Rivals(age))
  {
    RivalQueue(age);
    assert Rivals(age)[0] in Rivals(age) && Rivals(age)[1] in Rivals(age);
  }

  lemma RivalsInvert(w: Weights)
    requires ValidWeights(w) && !PriorityDominates(w)
    ensures !SelectsByPriority(w, Run(RivalHistory(RivalAge(w))), Rivals(RivalAge(w)))
  {
    var age := RivalAge(w);
    var cs, last := Rivals(age), Some("here");
    RivalQueue(age);
    RecencyFallsBelow(w.recency, w.recency + w.proximity + w.bonus - w.priority, age);
    assert Score(w, last, cs[0]) == w.priority + Term(w.recency, Recency(cs[0]));
    assert Score(w, last, cs[1]) == w.recency + w.proximity + w.bonus;
    NextHasMaximumScore(w, last, cs);
    assert Next(w, last, cs) == Some(cs[1]);
    assert URGENT in Run(RivalHistory(age)).table;
  }

  lemma NearnessExactly(x: real)
    ensures Nearness(x) * Max(x, 1.0) == 1.0
  {
  }

  lemma TermExactly(weight: real, x: real)
    ensures Term(weight, Nearness(x)) * Max(x, 1.0) == weight
  {
    NearnessExactly(x);
    assert weight * Nearness(x) * Max(x, 1.0) == weight * (Nearness(x) * Max(x, 1.0));
  }

  /** What a score is made up of: the weight of the priority times its level; the weight of the distance shared over its
      metres, one being the least, and nothing if it is unknown; the weight of the age shared over its seconds likewise;
      and the bonus for the destination served last. */
  lemma ScoreIsMadeUpExactly(w: Weights, last: Option<string>, c: Candidate)
    ensures var base := w.priority * c.record.priority as real;
            var recency := Term(w.recency, Recency(c));
            var proximity := Term(w.proximity, Proximity(c));
            var age := c.scoredAt - c.record.createdAt;
            && Score(w, last, c) == base + recency + proximity
                                    + (if last == Some(c.record.destination) then w.bonus else 0.0)
            && (age <= 1.0 ==> recency == w.recency) && (age > 1.0 ==> recency * age == w.recency)
            && (c.distance == None ==> proximity == 0.0)
            && (c.distance.Some? && c.distance.value <= 1.0 ==> proximity == w.proximity)
            && (c.distance.Some? && c.distance.value > 1.0 ==> proximity * c.distance.value == w.proximity)
  {
    var age := Max(c.scoredAt - c.record.createdAt, 0.0);
    TermExactly(w.recency, age);
    if c.distance.Some? {
      TermExactly(w.proximity, c.distance.value);
    }
  }

  /** Whatever the queue's history, the distances and the clock while the tasks are scored. */
  ghost predicate AlwaysSelectsByPriority(w: Weights) {
    forall ops, cs :: IsQuery(Run(ops).table, cs) && ScoredInTurn(cs) ==> SelectsByPriority(w, Run(ops), cs)
  }

  /** The same with one clock reading for all tasks. */
  ghost predicate SelectsByPriorityAtOnce(w: Weights) {
    forall ops, cs :: IsQuery(Run(ops).table, cs) && ScoredAtOnce(cs) ==> SelectsByPriority(w, Run(ops), cs)
  }

  /** The selected task has maximum priority among the queued ones, for all histories, ages, distances and destinations,
      exactly when one level of priority weighs at least as much as recency, proximity and direction bonus together: a
      tie falls to the database order, which is by priority. */
  lemma PriorityRulesExactlyWhenItDominates(w: Weights)
    requires ValidWeights(w)
    ensures AlwaysSelectsByPriority(w) <==> PriorityDominates(w)
  {
    if PriorityDominates(w) {
      DominanceAlwaysSelects(w);
    } else {
      RivalsInvert(w);
      RivalsAreQueried(RivalAge(w));
    }
  }

  /** The order in which the clock is read makes no difference. */
  lemma PriorityRulesAtOnceExactlyWhenItDominates(w: Weights)
    requires ValidWeights(w)
    ensures SelectsByPriorityAtOnce(w) <==> PriorityDominates(w)
  {
    if PriorityDominates(w) {
      DominanceAlwaysSelects(w);
    } else {
      RivalsInvert(w);
      RivalsAreQueried(RivalAge(w));
    }
  }

  lemma DominanceAlwaysSelects(w: Weights)
    requires ValidWeights(w) && PriorityDominates(w)
    ensures AlwaysSelectsByPriority(w) && SelectsByPriorityAtOnce(w)
  {
    forall ops: seq<Op>, cs | IsQuery(Run(ops).table, cs) ensures SelectsByPriority(w, Run(ops), cs) {
      DominanceSelectsByPriority(w, Run(ops), cs);
    }
  }

  lemma DefaultsSelectByPriority()
    ensures AlwaysSelectsByPriority(DEFAULT_WEIGHTS)
  {
    PriorityRulesExactlyWhenItDominates(DEFAULT_WEIGHTS);
  }
}
