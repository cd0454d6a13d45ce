/** Tasks waiting for an algorithm, the enrichment of their batch place, and the score that orders them. */
module AlgorithmTasks {
  import opened Wrappers

  datatype HeuristicName = ATTEMPTS | BATCH | ENTRANCE_TIME | PRIORITY | CURRENT_BATCH_PLACE

  /** A batch has at least one task, and a task counts itself. */
  type Length = n: int | n >= 1 witness 1

  /** Where a task stands in what is left of its batch; absent until the first cycle. */
  datatype BatchPlace = NoPlace | BatchPlace(previousLength: int, currentLength: Length, currentPlace: int)

  datatype Task = Task(
    jobId: string,
    taskId: string,
    nodeName: string,
    status: string,
    priority: int,
    attempts: int,
    batchIndex: int,
    initialBatchLength: Length,
    entranceTime: int,
    retryLimit: Option<int>,
    batchPlace: BatchPlace,
    latestScores: map<HeuristicName, real>,
    score: real
  )

  const PRESCHEDULE := "preschedule"

  function ScoreOf(t: Task): real { t.score }

  // ---------------------------------------------------------------- heuristics

  const MAX_ATTEMPTS := 3
  const MAX_BATCH := 1500
  const MAX_TIME := 3600000
  const MAX_PRIORITY := 5

  function Abs(x: int): int { if x < 0 then -x else x }

  /** Batch indexes from `MAX_BATCH` on score like the first ones. */
  function BatchScore(weight: real, t: Task): real {
    var place := if t.batchIndex < MAX_BATCH then Abs(t.batchIndex - (MAX_BATCH + 1)) else MAX_BATCH;
    weight * (place as real / MAX_BATCH as real)
  }

  function CurrentBatchPlaceScore(weight: real, t: Task): real {
    match t.batchPlace
    case NoPlace => 0.0
    case BatchPlace(_, length, place) => weight * (Abs(place - (length + 1)) as real / length as real)
  }

  datatype Heuristic = Heuristic(name: HeuristicName, weight: real)

  function Apply(h: Heuristic, now: int, t: Task): real {
    match h.name
    case ATTEMPTS => h.weight * t.attempts as real / MAX_ATTEMPTS as real
    case BATCH => BatchScore(h.weight, t)
    case ENTRANCE_TIME => h.weight * (now - t.entranceTime) as real / MAX_TIME as real
    case PRIORITY => h.weight * Abs(MAX_PRIORITY + 1 - t.priority) as real / MAX_PRIORITY as real
    case CURRENT_BATCH_PLACE => CurrentBatchPlaceScore(h.weight, t)
  }

  /** The configured weights, in the order the heuristics are registered. */
  const CONFIGURED := [
    Heuristic(ATTEMPTS, 0.2), Heuristic(BATCH, 0.1), Heuristic(ENTRANCE_TIME, 0.2),
    Heuristic(PRIORITY, 0.4), Heuristic(CURRENT_BATCH_PLACE, 0.1)]

  function Total(hs: seq<Heuristic>, now: int, t: Task): real {
    if hs == [] then 0.0 else Total(hs[..|hs| - 1], now, t) + Apply(hs[|hs| - 1], now, t)
  }

  function Latest(hs: seq<Heuristic>, now: int, t: Task): map<HeuristicName, real> {
    if hs == [] then t.latestScores
    else
      var h := hs[|hs| - 1];
      Latest(hs[..|hs| - 1], now, t)[h.name := Apply(h, now, t)]
  }

  /** A prescheduled task scores 0. */
  function Scored(hs: seq<Heuristic>, now: int, t: Task): Task {
    if t.status == PRESCHEDULE then t.(score := 0.0)
    else t.(score := Total(hs, now, t), latestScores := Latest(hs, now, t))
  }

  class HeuristicRunner {
    var heuristicsWeights: map<HeuristicName, real>
    var heuristicMap: seq<Heuristic>

    constructor (weights: map<HeuristicName, real>)
      ensures heuristicsWeights == weights && heuristicMap == []
    {
      heuristicsWeights, heuristicMap := weights, [];
    }

    method AddHeuristicToQueue(name: HeuristicName)
      modifies this`heuristicMap
      ensures heuristicMap == old(heuristicMap) +
              if name in heuristicsWeights && heuristicsWeights[name] != 0.0
              then [Heuristic(name, heuristicsWeights[name])] else []
    {
      if name in heuristicsWeights && heuristicsWeights[name] != 0.0 {
        heuristicMap := heuristicMap + [Heuristic(name, heuristicsWeights[name])];
      }
    }

    method Run(t: Task, now: int) returns (scored: Task)
      ensures scored == Scored(heuristicMap, now, t)
    {
      if t.status == PRESCHEDULE {
        return t.(score := 0.0);
      }
      var result := 0.0;
      var latest := t.latestScores;
      for i := 0 to |heuristicMap|
        invariant result == Total(heuristicMap[..i], now, t)
        invariant latest == Latest(heuristicMap[..i], now, t)
      {
        var h := heuristicMap[i];
        assert heuristicMap[..i + 1][..i] == heuristicMap[..i];
        var heuristicScore := Apply(h, now, t);
        latest := latest[h.name := heuristicScore];
        result := result + heuristicScore;
      }
      assert heuristicMap[..|heuristicMap|] == heuristicMap;
      scored := t.(score := result, latestScores := latest);
    }
  }

  /** Registering all heuristics under the configured weights gives `CONFIGURED`. */
  method ConfiguredRunner() returns (r: HeuristicRunner)
    ensures fresh(r) && r.heuristicMap == CONFIGURED
  {
    r := new HeuristicRunner(map[
      ATTEMPTS := 0.2, PRIORITY := 0.4, ENTRANCE_TIME := 0.2, BATCH := 0.1, CURRENT_BATCH_PLACE := 0.1]);
    r.AddHeuristicToQueue(ATTEMPTS);
    r.AddHeuristicToQueue(BATCH);
    r.AddHeuristicToQueue(ENTRANCE_TIME);
    r.AddHeuristicToQueue(PRIORITY);
    r.AddHeuristicToQueue(CURRENT_BATCH_PLACE);
  }

  // ---------------------------------------------------------------- batch place

  function Count(q: seq<Task>, jobId: string, nodeName: string): nat {
    if q == [] then 0
    else
      var last := q[|q| - 1];
      Count(q[..|q| - 1], jobId, nodeName) + if last.jobId == jobId && last.nodeName == nodeName then 1 else 0
  }

  type Lengths = map<string, map<string, nat>>

  ghost predicate CountsRight(lengths: Lengths, q: seq<Task>) {
    forall j, n :: j in lengths && n in lengths[j] ==> lengths[j][n] == Count(q, j, n)
  }

  ghost predicate CountsAll(lengths: Lengths, q: seq<Task>) {
    forall j, n :: Count(q, j, n) > 0 ==> j in lengths && n in lengths[j]
  }

  /** The running counts of the tasks in a queue, by job and node. */
  method GetListOfJobsIDs(q: seq<Task>) returns (lengths: Lengths)
    ensures CountsRight(lengths, q) && CountsAll(lengths, q)
  {
    lengths := map[];
    for i := 0 to |q|
      invariant CountsRight(lengths, q[..i]) && CountsAll(lengths, q[..i])
    {
      var t := q[i];
      if t.jobId !in lengths {
        lengths := lengths[t.jobId := map[t.nodeName := 1]];
      } else if t.nodeName in lengths[t.jobId] {
        lengths := lengths[t.jobId := lengths[t.jobId][t.nodeName := lengths[t.jobId][t.nodeName] + 1]];
      } else {
        lengths := lengths[t.jobId := lengths[t.jobId][t.nodeName := 1]];
      }
      assert q[..i + 1][..i] == q[..i];
      forall j, n
        ensures Count(q[..i + 1], j, n) == Count(q[..i], j, n) + if t.jobId == j && t.nodeName == n then 1 else 0
      {
      }
    }
    assert q[..|q|] == q;
  }

  /** A place of 0 counts as absent and starts over. */
  function Enriched(t: Task, length: Length): Task {
    var b :=
      if t.batchPlace.BatchPlace? && t.batchPlace.currentPlace != 0
      then BatchPlace(t.batchPlace.currentLength, length, t.batchPlace.currentPlace)
      else BatchPlace(t.initialBatchLength, t.initialBatchLength, t.batchIndex);
    t.(batchPlace := b.(currentPlace := b.currentPlace - (b.previousLength - b.currentLength)))
  }

  lemma {:induction false} CountsItself(q: seq<Task>, i: nat)
    requires i < |q|
    ensures Count(q, q[i].jobId, q[i].nodeName) >= 1
  {
    if i < |q| - 1 {
      CountsItself(q[..|q| - 1], i);
    }
  }

  /** One cycle over a queue; lengths are counted before any task is touched. */
  function EnrichedAll(q: seq<Task>): (r: seq<Task>)
    ensures |r| == |q|
  {
    seq(|q|, i requires 0 <= i < |q| =>
      CountsItself(q, i);
      Enriched(q[i], Count(q, q[i].jobId, q[i].nodeName)))
  }

  method EnrichBatchPlaces(q: seq<Task>) returns (r: seq<Task>)
    ensures r == EnrichedAll(q)
  {
    var uniqueJobs := GetListOfJobsIDs(q);
    r := q;
    for i := 0 to |q|
      invariant |r| == |q| && r[i..] == q[i..] && r[..i] == EnrichedAll(q)[..i]
    {
      CountsItself(q, i);
      var t := r[i];
      assert t == q[i];
      var b := t.batchPlace;
      if b.BatchPlace? && b.currentPlace != 0 {
        b := BatchPlace(b.currentLength, uniqueJobs[t.jobId][t.nodeName], b.currentPlace);
      } else {
        b := BatchPlace(t.initialBatchLength, t.initialBatchLength, t.batchIndex);
      }
      b := b.(currentPlace := b.currentPlace - (b.previousLength - b.currentLength));
      r := r[i := t.(batchPlace := b)];
      assert r[i] == EnrichedAll(q)[i];
    }
  }
}
