/** The recurrence behind the batch place, and how it ranks the tasks of one batch. */
module BatchOrder {
  import opened Wrappers
  import opened AlgorithmTasks
  import opened TaskQueue
  import opened TaskQueueRuns

  /** However long the queue was in each cycle, a place differs from its length as the index does from the batch. */
  predicate Placed(t: Task) {
    t.batchPlace.BatchPlace? ==>
      t.batchPlace.currentPlace - t.batchPlace.currentLength == t.batchIndex - t.initialBatchLength
  }

  ghost predicate AllPlaced(ts: seq<Task>) { forall t :: t in ts ==> Placed(t) }

  lemma EnrichedIsPlaced(t: Task, length: Length)
    requires Placed(t)
    ensures Placed(Enriched(t, length)) && Enriched(t, length).batchPlace.BatchPlace?
  {
  }

  lemma EnrichedPlacedAt(q: seq<Task>, i: nat)
    requires AllPlaced(q) && i < |q|
    ensures Placed(EnrichedAll(q)[i]) && EnrichedAll(q)[i].batchPlace.BatchPlace?
  {
    assert Placed(q[i]);
    CountsItself(q, i);
    EnrichedIsPlaced(q[i], Count(q, q[i].jobId, q[i].nodeName));
  }

  lemma ScoredKeepsPlace(t: Task, now: int)
    ensures Placed(Scored(CONFIGURED, now, t)) <==> Placed(t)
    ensures Scored(CONFIGURED, now, t).batchPlace == t.batchPlace
  {
  }

  lemma CycledPlaced(q: seq<Task>, now: int)
    requires AllPlaced(q)
    ensures forall t :: t in Cycled(CONFIGURED, q, now) ==> Placed(t) && t.batchPlace.BatchPlace?
  {
    forall t | t in Cycled(CONFIGURED, q, now) ensures Placed(t) && t.batchPlace.BatchPlace? {
      CycledHas(q, now, t);
      var i :| 0 <= i < |q| && t == Scored(CONFIGURED, now, EnrichedAll(q)[i]);
      EnrichedPlacedAt(q, i);
      ScoredKeepsPlace(EnrichedAll(q)[i], now);
    }
  }

  lemma AddedPlaced(q: seq<Task>, ts: seq<Task>, now: int)
    requires AllPlaced(q) && AllPlaced(ts)
    ensures AllPlaced(Added(CONFIGURED, q, ts, now))
  {
    forall t | t in Added(CONFIGURED, q, ts, now) ensures Placed(t) {
      AddedHas(q, ts, now, t);
    }
  }

  lemma StepPlaced(s: System, e: Event)
    requires AllPlaced(s.waiting) && (e.Arrive? ==> AllPlaced(e.tasks))
    ensures AllPlaced(Step(s, e).waiting)
  {
    match e
    case Arrive(ts, now) => AddedPlaced(s.waiting, ts, now);
    case Remove(refs) =>
      forall t | t in Keep(s.waiting, Requests(refs)) ensures Placed(t) {
        KeepHas(s.waiting, Requests(refs), t);
      }
    case Send =>
    case Cycle(now) => CycledPlaced(s.waiting, now);
    case Stuck(i, jobStatus, now) =>
      if i < |s.sent| {
        AddedPlaced(s.waiting, Requeued(s.sent[i], jobStatus), now);
      }
  }

  /** Over every run, with any queue lengths, places and lengths of waiting tasks differ as indexes and batches do. */
  lemma {:induction false} RunPlaced(s: System, es: seq<Event>)
    requires AllPlaced(s.waiting) && forall e :: e in es && e.Arrive? ==> AllPlaced(e.tasks)
    ensures AllPlaced(Run(s, es).waiting)
    decreases |es|
  {
    if es != [] {
      assert es[0] in es;
      StepPlaced(s, es[0]);
      RunPlaced(Step(s, es[0]), es[1..]);
    }
  }

  /** The place term depends on the index in the batch and the current length only. */
  lemma PlaceScoreByIndex(weight: real, t: Task)
    requires Placed(t) && t.batchPlace.BatchPlace?
    ensures CurrentBatchPlaceScore(weight, t) ==
            weight * (Abs(t.batchIndex - t.initialBatchLength - 1) as real / t.batchPlace.currentLength as real)
  {
    assert t.batchPlace.currentPlace - (t.batchPlace.currentLength + 1) == t.batchIndex - t.initialBatchLength - 1;
  }

  /** A task starts over when it has no place or its place came down to 0. */
  predicate StartsOver(t: Task) { t.batchPlace.NoPlace? || t.batchPlace.currentPlace == 0 }

  lemma FractionOrder(x: int, m: Length, y: int, n: Length)
    ensures x as real / m as real > y as real / n as real <==> x * n > y * m
  {
    var a, b := x as real / m as real, y as real / n as real;
    var mn := m as real * n as real;
    Positive(m as real, n as real);
    assert a * mn == x as real * n as real by {
      assert a * m as real == x as real;
      Regroup(a, m as real, n as real);
    }
    assert b * mn == y as real * m as real by {
      assert b * n as real == y as real;
      Regroup(b, n as real, m as real);
      assert n as real * m as real == mn;
    }
    Scale(a, b, mn);
    assert (x * n) as real == x as real * n as real && (y * m) as real == y as real * m as real;
  }

  lemma Positive(a: real, b: real)
    requires a > 0.0 && b > 0.0
    ensures a * b > 0.0
  {
  }

  lemma Regroup(a: real, b: real, c: real)
    ensures a * (b * c) == (a * b) * c
  {
  }

  lemma Scale(a: real, b: real, c: real)
    requires c > 0.0
    ensures a > b <==> a * c > b * c
  {
  }

  /** How far the task stands from the place behind the end of the batch it was told of. */
  function Distance(t: Task): nat { Abs(t.initialBatchLength + 1 - t.batchIndex) }

  /** The length a cycle that counts `c` tasks leaves the task with. */
  function LengthAfter(t: Task, c: Length): Length { if StartsOver(t) then t.initialBatchLength else c }

  function PlaceScoreAfter(weight: real, t: Task, c: Length): real { CurrentBatchPlaceScore(weight, Enriched(t, c)) }

  lemma PlaceScoreAfterIs(weight: real, t: Task, c: Length)
    requires Placed(t)
    ensures PlaceScoreAfter(weight, t, c) == Distance(t) as real / LengthAfter(t, c) as real * weight
  {
    EnrichedIsPlaced(t, c);
    PlaceScoreByIndex(weight, Enriched(t, c));
    assert Abs(t.batchIndex - t.initialBatchLength - 1) == Distance(t);
    assert Enriched(t, c).batchPlace.currentLength == LengthAfter(t, c);
  }

  /** Any two tasks, retried or not, compare as the cross products of their distances and their lengths. */
  lemma OutranksIff(weight: real, a: Task, b: Task, c: Length)
    requires weight > 0.0 && Placed(a) && Placed(b)
    ensures PlaceScoreAfter(weight, a, c) > PlaceScoreAfter(weight, b, c) <==>
            Distance(a) * LengthAfter(b, c) > Distance(b) * LengthAfter(a, c)
  {
    PlaceScoreAfterIs(weight, a, c);
    PlaceScoreAfterIs(weight, b, c);
    FractionOrder(Distance(a), LengthAfter(a, c), Distance(b), LengthAfter(b, c));
    Scale(Distance(a) as real / LengthAfter(a, c) as real, Distance(b) as real / LengthAfter(b, c) as real, weight);
  }

  lemma ProductGrows(x: int, y: int, m: int, n: int)
    requires x > y >= 0 && n >= m >= 1
    ensures x * n > y * m
  {
    assert x * n >= (y + 1) * n by {
      assert (x - (y + 1)) * n >= 0;
    }
    assert y * n >= y * m by {
      assert y * (n - m) >= 0;
    }
  }

  /**
   * After a cycle that counts `c` tasks of a batch, of two tasks that were not retried the earlier one
   * outranks the later one on the place term, unless only one of them starts over and the lengths that
   * leaves them with make up for the lead.
   */
  lemma EarlierRanksFirstIff(weight: real, a: Task, b: Task, c: Length)
    requires weight > 0.0 && Placed(a) && Placed(b) && a.initialBatchLength == b.initialBatchLength
    requires a.batchIndex < b.batchIndex <= b.initialBatchLength
    ensures PlaceScoreAfter(weight, a, c) > PlaceScoreAfter(weight, b, c) <==>
            StartsOver(a) == StartsOver(b) || Distance(a) * LengthAfter(b, c) > Distance(b) * LengthAfter(a, c)
    ensures LengthAfter(a, c) == LengthAfter(b, c) ==>
            PlaceScoreAfter(weight, a, c) > PlaceScoreAfter(weight, b, c)
    ensures StartsOver(b) && c <= b.initialBatchLength ==>
            PlaceScoreAfter(weight, a, c) > PlaceScoreAfter(weight, b, c)
  {
    OutranksIff(weight, a, b, c);
    if LengthAfter(a, c) <= LengthAfter(b, c) {
      ProductGrows(Distance(a), Distance(b), LengthAfter(a, c), LengthAfter(b, c));
    }
  }

  lemma ProductKeepsOrder(x: nat, y: nat, m: Length)
    ensures x * m > y * m <==> x > y
  {
    if x > y {
      ProductGrows(x, y, m, m);
    } else {
      assert (y - x) * m >= 0;
    }
  }

  /** The batch a retried task is told of has length 1, whatever its index: the later of two tends to rank first. */
  lemma RetriedOutranksIff(weight: real, a: Task, b: Task, c: Length)
    requires weight > 0.0 && Placed(a) && Placed(b) && a.initialBatchLength == b.initialBatchLength == 1
    requires a.batchIndex < b.batchIndex && LengthAfter(a, c) == LengthAfter(b, c)
    ensures PlaceScoreAfter(weight, b, c) > PlaceScoreAfter(weight, a, c) <==> a.batchIndex + b.batchIndex > 4
  {
    OutranksIff(weight, b, a, c);
    ProductKeepsOrder(Distance(b), Distance(a), LengthAfter(a, c));
  }

  /** The tasks of a job and a node. */
  ghost function Positions(q: seq<Task>, jobId: string, nodeName: string): set<nat> {
    set i: nat | i < |q| && q[i].jobId == jobId && q[i].nodeName == nodeName
  }

  lemma PositionsOneMore(front: seq<Task>, t: Task, jobId: string, nodeName: string)
    ensures Positions(front + [t], jobId, nodeName) ==
            Positions(front, jobId, nodeName) + if t.jobId == jobId && t.nodeName == nodeName then {|front|} else {}
  {
    var q := front + [t];
    forall i: nat | i < |q| ensures q[i] == if i < |front| then front[i] else t {
    }
  }

  lemma {:induction false} CountIsPositions(q: seq<Task>, jobId: string, nodeName: string)
    ensures Count(q, jobId, nodeName) == |Positions(q, jobId, nodeName)|
  {
    if q != [] {
      var front, t := q[..|q| - 1], q[|q| - 1];
      CountIsPositions(front, jobId, nodeName);
      PositionsOneMore(front, t, jobId, nodeName);
      assert q == front + [t];
    }
  }

  /** A cycle leaves a task with the number of tasks of its job and node, or its batch's length if it starts over. */
  lemma CycleLength(q: seq<Task>, i: nat)
    requires i < |q|
    ensures var t := EnrichedAll(q)[i];
            && t.batchPlace.BatchPlace?
            && t.batchPlace.currentLength ==
               if StartsOver(q[i]) then q[i].initialBatchLength else |Positions(q, q[i].jobId, q[i].nodeName)|
  {
    CountIsPositions(q, q[i].jobId, q[i].nodeName);
  }

  function TaskOfFour(index: int): Task {
    Task("job", "task", "node", "creating", 3, 0, index, 4, 0, None, NoPlace, map[], 0.0)
  }

  lemma CountOfTwo(a: Task, b: Task)
    requires a.jobId == b.jobId && a.nodeName == b.nodeName
    ensures Count([a, b], a.jobId, a.nodeName) == 2
  {
    assert [a, b][..1] == [a] && [a][..0] == [];
    assert Count([a], a.jobId, a.nodeName) == 1;
  }

  /** One cycle over two tasks of one batch that are all that is left of it. */
  lemma CycleOfTwo(a: Task, b: Task)
    requires a.jobId == b.jobId && a.nodeName == b.nodeName
    ensures EnrichedAll([a, b]) == [Enriched(a, 2), Enriched(b, 2)]
  {
    CountOfTwo(a, b);
  }

  /** The exception is real: when tasks 2 and 3 of 4 wait for three cycles, task 3 comes to outrank task 2. */
  lemma LaterMayRankFirst(weight: real)
    requires weight > 0.0
    ensures var q := EnrichedAll(EnrichedAll(EnrichedAll([TaskOfFour(2), TaskOfFour(3)])));
            CurrentBatchPlaceScore(weight, q[0]) < CurrentBatchPlaceScore(weight, q[1])
  {
    var a0, b0 := TaskOfFour(2), TaskOfFour(3);
    var a1, b1 := Enriched(a0, 2), Enriched(b0, 2);
    var a2, b2 := Enriched(a1, 2), Enriched(b1, 2);
    CycleOfTwo(a0, b0);
    CycleOfTwo(a1, b1);
    CycleOfTwo(a2, b2);
    assert a1.batchPlace == BatchPlace(4, 4, 2) && b1.batchPlace == BatchPlace(4, 4, 3);
    assert a2.batchPlace == BatchPlace(4, 2, 0) && b2.batchPlace == BatchPlace(4, 2, 1);
    assert Enriched(a2, 2).batchPlace == BatchPlace(4, 4, 2) && Enriched(b2, 2).batchPlace == BatchPlace(2, 2, 1);
  }

  /** Two stuck tasks of one batch, past its first, that are put back: at the next cycle the later one ranks first. */
  lemma RetriedLaterRanksFirst(weight: real, a: Task, b: Task)
    requires weight > 0.0 && a.jobId == b.jobId && a.nodeName == b.nodeName && 2 <= a.batchIndex < b.batchIndex
    ensures var q := EnrichedAll([Adapted(a), Adapted(b)]);
            CurrentBatchPlaceScore(weight, q[0]) < CurrentBatchPlaceScore(weight, q[1])
  {
    CycleOfTwo(Adapted(a), Adapted(b));
    RetriedOutranksIff(weight, Adapted(a), Adapted(b), 2);
  }
}
