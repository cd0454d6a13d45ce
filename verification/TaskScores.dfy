/**
 * What the score of a task is worth: exactly how priority, attempts, batch index and age weigh against each other, and
 * that a task of higher worth is queued in front of one of lower worth.
 */
module TaskScores {
  import opened StableSort
  import opened AlgorithmTasks
  import opened TaskQueue
  import opened TaskQueueRuns

  function ScoreAt(now: int, t: Task): real { Scored(CONFIGURED, now, t).score }

  // ---------------------------------------------------------------- the terms

  /** Batch indexes up to 1499 count down from the start of the batch; from 1500 on all count as 1500. */
  function BatchValue(index: int): int {
    if index < 1500 then 1501 - index else 1500
  }

  /** The place in what is left of the batch: the distance from behind its end over its length. */
  function PlaceValue(p: BatchPlace): real {
    match p
    case NoPlace => 0.0
    case BatchPlace(_, length, place) =>
      (if place <= length + 1 then length + 1 - place else place - length - 1) as real / length as real
  }

  lemma ApplyIs(now: int, t: Task)
    ensures Apply(CONFIGURED[0], now, t) == t.attempts as real / 15.0
    ensures Apply(CONFIGURED[1], now, t) == BatchValue(t.batchIndex) as real / 15000.0
    ensures Apply(CONFIGURED[2], now, t) == (now - t.entranceTime) as real / 18000000.0
    ensures 1 <= t.priority <= 5 ==> Apply(CONFIGURED[3], now, t) == 0.08 * (6 - t.priority) as real
    ensures Apply(CONFIGURED[4], now, t) == 0.1 * PlaceValue(t.batchPlace)
  {
    assert Abs(t.batchIndex - 1501) as real / 1500.0 * 0.1 == Abs(t.batchIndex - 1501) as real / 15000.0;
  }

  lemma TotalIs(now: int, t: Task)
    ensures Total(CONFIGURED, now, t) ==
            Apply(CONFIGURED[0], now, t) + Apply(CONFIGURED[1], now, t) + Apply(CONFIGURED[2], now, t)
            + Apply(CONFIGURED[3], now, t) + Apply(CONFIGURED[4], now, t)
  {
    var h := CONFIGURED;
    assert h[..4][..3] == h[..3] && h[..3][..2] == h[..2] && h[..2][..1] == h[..1] && h[..1][..0] == [];
    assert h[..4][3] == h[3] && h[..3][2] == h[2] && h[..2][1] == h[1] && h[..1][0] == h[0];
    assert Total(h[..1], now, t) == Apply(h[0], now, t);
    assert Total(h[..2], now, t) == Total(h[..1], now, t) + Apply(h[1], now, t);
    assert Total(h[..3], now, t) == Total(h[..2], now, t) + Apply(h[2], now, t);
    assert Total(h[..4], now, t) == Total(h[..3], now, t) + Apply(h[3], now, t);
  }

  /** The score of a task in its own fields; a prescheduled one scores 0. */
  lemma ScoreIs(now: int, t: Task)
    requires 1 <= t.priority <= 5
    ensures t.status == PRESCHEDULE ==> ScoreAt(now, t) == 0.0
    ensures t.status != PRESCHEDULE ==>
              ScoreAt(now, t) ==
              t.attempts as real / 15.0 + BatchValue(t.batchIndex) as real / 15000.0
              + (now - t.entranceTime) as real / 18000000.0
              + 0.08 * (6 - t.priority) as real + 0.1 * PlaceValue(t.batchPlace)
  {
    TotalIs(now, t);
    ApplyIs(now, t);
  }

  lemma LatestStep(hs: seq<Heuristic>, h: Heuristic, now: int, t: Task)
    ensures Latest(hs + [h], now, t) == Latest(hs, now, t)[h.name := Apply(h, now, t)]
  {
    assert (hs + [h])[..|hs|] == hs && (hs + [h])[|hs|] == h;
  }

  /** A scored task remembers each term of its score, under its name. */
  lemma LatestIs(now: int, t: Task)
    requires 1 <= t.priority <= 5 && t.status != PRESCHEDULE
    ensures Scored(CONFIGURED, now, t).latestScores ==
            t.latestScores[ATTEMPTS := t.attempts as real / 15.0]
                          [BATCH := BatchValue(t.batchIndex) as real / 15000.0]
                          [ENTRANCE_TIME := (now - t.entranceTime) as real / 18000000.0]
                          [PRIORITY := 0.08 * (6 - t.priority) as real]
                          [CURRENT_BATCH_PLACE := 0.1 * PlaceValue(t.batchPlace)]
  {
    var h := CONFIGURED;
    ApplyIs(now, t);
    LatestStep([], h[0], now, t);
    LatestStep([h[0]], h[1], now, t);
    LatestStep([h[0], h[1]], h[2], now, t);
    LatestStep([h[0], h[1], h[2]], h[3], now, t);
    LatestStep([h[0], h[1], h[2], h[3]], h[4], now, t);
    assert [] + [h[0]] == [h[0]] && [h[0]] + [h[1]] == [h[0], h[1]] && [h[0], h[1]] + [h[2]] == [h[0], h[1], h[2]];
    assert [h[0], h[1], h[2]] + [h[3]] == [h[0], h[1], h[2], h[3]] && [h[0], h[1], h[2], h[3]] + [h[4]] == h;
  }

  // ---------------------------------------------------------------- what outranks what

  /** All but the batch place, in milliseconds of age. */
  function Worth(now: int, t: Task): int {
    1200000 * t.attempts + 1200 * BatchValue(t.batchIndex) + (now - t.entranceTime) + 1440000 * (6 - t.priority)
  }

  ghost predicate Ordinary(t: Task) { 1 <= t.priority <= 5 && t.status != PRESCHEDULE }

  /**
   * Of two tasks with equal batch places one outranks the other exactly by worth: a step of priority weighs as much as
   * 1,440,000 ms of age, an attempt as 1,200,000 ms, a step of the batch index as 1,200 ms.
   */
  lemma OutranksIff(now: int, a: Task, b: Task)
    requires Ordinary(a) && Ordinary(b) && PlaceValue(a.batchPlace) == PlaceValue(b.batchPlace)
    ensures ScoreAt(now, a) > ScoreAt(now, b) <==> Worth(now, a) > Worth(now, b)
  {
    WorthIsScore(now, a);
    WorthIsScore(now, b);
  }

  lemma WorthIsScore(now: int, t: Task)
    requires Ordinary(t)
    ensures ScoreAt(now, t) == Worth(now, t) as real / 18000000.0 + 0.1 * PlaceValue(t.batchPlace)
  {
    ScoreIs(now, t);
  }

  /** All else equal, each step of priority towards 1 is worth 0.08. */
  lemma PriorityStep(now: int, a: Task, b: Task)
    requires Ordinary(a) && Ordinary(b) && a.attempts == b.attempts && a.batchIndex == b.batchIndex
    requires a.entranceTime == b.entranceTime && a.batchPlace == b.batchPlace
    ensures ScoreAt(now, a) - ScoreAt(now, b) == 0.08 * (b.priority - a.priority) as real
  {
    ScoreIs(now, a);
    ScoreIs(now, b);
  }

  /** All else equal, each attempt is worth a fifteenth. */
  lemma AttemptStep(now: int, a: Task, b: Task)
    requires Ordinary(a) && Ordinary(b) && a.priority == b.priority && a.batchIndex == b.batchIndex
    requires a.entranceTime == b.entranceTime && a.batchPlace == b.batchPlace
    ensures ScoreAt(now, a) - ScoreAt(now, b) == (a.attempts - b.attempts) as real / 15.0
  {
    ScoreIs(now, a);
    ScoreIs(now, b);
  }

  /** All else equal, an hour of age is worth 0.2. */
  lemma AgeStep(now: int, a: Task, b: Task)
    requires Ordinary(a) && Ordinary(b) && a.priority == b.priority && a.batchIndex == b.batchIndex
    requires a.attempts == b.attempts && a.batchPlace == b.batchPlace
    ensures ScoreAt(now, a) - ScoreAt(now, b) == 0.2 * ((b.entranceTime - a.entranceTime) as real / 3600000.0)
  {
    ScoreIs(now, a);
    ScoreIs(now, b);
  }

  /** All else equal, an earlier task of a batch scores a fifteen-thousandth per step higher, among the first 1499. */
  lemma BatchStep(now: int, a: Task, b: Task)
    requires Ordinary(a) && Ordinary(b) && a.priority == b.priority && a.entranceTime == b.entranceTime
    requires a.attempts == b.attempts && a.batchPlace == b.batchPlace
    ensures a.batchIndex < 1500 && b.batchIndex < 1500 ==>
              ScoreAt(now, a) - ScoreAt(now, b) == (b.batchIndex - a.batchIndex) as real / 15000.0
    ensures a.batchIndex >= 1500 && b.batchIndex >= 1500 ==> ScoreAt(now, a) == ScoreAt(now, b)
    ensures a.batchIndex >= 1500 && b.batchIndex == 1 ==> ScoreAt(now, a) == ScoreAt(now, b)
  {
    ScoreIs(now, a);
    ScoreIs(now, b);
  }

  // ---------------------------------------------------------------- in the queue

  /** Both are in the queue, the first in front of the second. */
  ghost predicate InFront(q: seq<Task>, a: Task, b: Task) {
    a in q && b in q && forall i, j :: 0 <= i < |q| && 0 <= j < |q| && q[i] == a && q[j] == b ==> i < j
  }

  lemma SortedInFront(q: seq<Task>, a: Task, b: Task)
    requires SortedDesc(q, ScoreOf) && a in q && b in q && a.score > b.score
    ensures InFront(q, a, b)
  {
    forall i, j | 0 <= i < |q| && 0 <= j < |q| && q[i] == a && q[j] == b ensures i < j {
      assert j < i ==> ScoreOf(q[j]) >= ScoreOf(q[i]);
    }
  }

  /** Of two tasks that arrive together the one of higher worth is queued in front. */
  lemma ArrivedInFront(q: seq<Task>, ts: seq<Task>, now: int, a: Task, b: Task)
    requires a in ts && b in ts && Ordinary(a) && Ordinary(b) && a.batchPlace == b.batchPlace
    requires Worth(now, a) > Worth(now, b)
    ensures InFront(Added(CONFIGURED, q, ts, now), Scored(CONFIGURED, now, a), Scored(CONFIGURED, now, b))
  {
    var kept, scored := Keep(q, Duplicates(ts)), ScoredAll(CONFIGURED, now, ts);
    OutranksIff(now, a, b);
    SortDescSorted(kept + scored, ScoreOf);
    ScoredIsIn(ts, now, a);
    ScoredIsIn(ts, now, b);
    StaysInSorted(kept, scored, Scored(CONFIGURED, now, a));
    StaysInSorted(kept, scored, Scored(CONFIGURED, now, b));
    SortedInFront(Added(CONFIGURED, q, ts, now), Scored(CONFIGURED, now, a), Scored(CONFIGURED, now, b));
  }

  lemma ScoredIsIn(ts: seq<Task>, now: int, t: Task)
    requires t in ts
    ensures Scored(CONFIGURED, now, t) in ScoredAll(CONFIGURED, now, ts)
  {
    var i :| 0 <= i < |ts| && ts[i] == t;
    assert ScoredAll(CONFIGURED, now, ts)[i] == Scored(CONFIGURED, now, t);
  }

  lemma StaysInSorted(kept: seq<Task>, scored: seq<Task>, t: Task)
    requires t in scored
    ensures t in SortDesc(kept + scored, ScoreOf)
  {
    assert t in kept + scored;
    assert t in multiset(kept + scored);
    assert t in multiset(SortDesc(kept + scored, ScoreOf));
  }

  /** A cycle queues waiting tasks in front of others of lower worth whose enriched batch place is the same. */
  lemma CycledInFront(q: seq<Task>, now: int, i: nat, j: nat)
    requires i < |q| && j < |q| && Ordinary(q[i]) && Ordinary(q[j]) && Worth(now, q[i]) > Worth(now, q[j])
    requires EnrichedAll(q)[i].batchPlace == EnrichedAll(q)[j].batchPlace
    ensures InFront(Cycled(CONFIGURED, q, now), Scored(CONFIGURED, now, EnrichedAll(q)[i]),
                    Scored(CONFIGURED, now, EnrichedAll(q)[j]))
  {
    var es := EnrichedAll(q);
    var scored := ScoredAll(CONFIGURED, now, es);
    EnrichedKeeps(q, i);
    EnrichedKeeps(q, j);
    OutranksIff(now, es[i], es[j]);
    SortDescSorted(scored, ScoreOf);
    ScoredIsIn(es, now, es[i]);
    ScoredIsIn(es, now, es[j]);
    assert [] + scored == scored;
    StaysInSorted([], scored, Scored(CONFIGURED, now, es[i]));
    StaysInSorted([], scored, Scored(CONFIGURED, now, es[j]));
    SortedInFront(Cycled(CONFIGURED, q, now), Scored(CONFIGURED, now, es[i]), Scored(CONFIGURED, now, es[j]));
  }

  /** So of two new tasks alike in all but priority the one with the lower number is queued in front. */
  lemma LowerPriorityInFront(q: seq<Task>, ts: seq<Task>, now: int, a: Task, b: Task)
    requires a in ts && b in ts && Ordinary(a) && Ordinary(b) && a.attempts == b.attempts
    requires a.batchIndex == b.batchIndex && a.entranceTime == b.entranceTime && a.batchPlace == b.batchPlace
    requires a.priority < b.priority
    ensures InFront(Added(CONFIGURED, q, ts, now), Scored(CONFIGURED, now, a), Scored(CONFIGURED, now, b))
  {
    ArrivedInFront(q, ts, now, a, b);
  }
}
