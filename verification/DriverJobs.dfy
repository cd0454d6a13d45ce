/** Jobs of the pipeline driver queue and the score that orders them. */
module DriverJobs {

  datatype HeuristicName = PRIORITY | ENTRANCE_TIME

  /**
   * A job in a queue. Times are milliseconds. `updateRunning` is the mark the concurrency handler
   * leaves on a job; 0 stands for both 0 and absent.
   */
  datatype Job = Job(
    jobId: string,
    pipelineName: string,
    experimentName: string,
    tags: seq<string>,
    priority: int,
    entranceTime: int,
    maxExceeded: bool,
    score: real,
    latestScores: map<HeuristicName, real>,
    updateRunning: int
  )

  /** What identifies a job and never changes while it waits: all but score and mark. */
  function Core(j: Job): Job {
    j.(score := 0.0, latestScores := map[], updateRunning := 0)
  }

  function ScoreOf(j: Job): real { j.score }

  /** The stored pipeline a job was created from; a `startTime` of 0 counts as absent. */
  datatype Pipeline = Pipeline(
    name: string,
    experimentName: string,
    tags: seq<string>,
    priority: int,
    maxExceeded: bool,
    startTime: int
  )

  function PipelineToQueueAdapter(jobId: string, p: Pipeline, now: int): (j: Job)
    ensures j.jobId == jobId && j.updateRunning == 0
  {
    Job(jobId, p.name, p.experimentName, p.tags, p.priority,
        if p.startTime != 0 then p.startTime else now,
        p.maxExceeded, 0.0, map[], 0)
  }

  const MAX_PRIORITY := 5
  const MAX_TIME := 3600000

  datatype Heuristic = Heuristic(name: HeuristicName, weight: real)

  function Abs(x: int): int { if x < 0 then -x else x }

  function PriorityScore(weight: real, j: Job): real {
    weight * Abs(MAX_PRIORITY + 1 - j.priority) as real / MAX_PRIORITY as real
  }

  /** A zero age scores 0.0001, since the source falls back on a falsy product. */
  function EntranceTimeScore(weight: real, now: int, j: Job): real {
    var s := weight * (now - j.entranceTime) as real / MAX_TIME as real;
    if s == 0.0 then 0.0001 else s
  }

  function Apply(h: Heuristic, now: int, j: Job): real {
    match h.name
    case PRIORITY => PriorityScore(h.weight, j)
    case ENTRANCE_TIME => EntranceTimeScore(h.weight, now, j)
  }

  function Total(hs: seq<Heuristic>, now: int, j: Job): real {
    if hs == [] then 0.0 else Total(hs[..|hs| - 1], now, j) + Apply(hs[|hs| - 1], now, j)
  }

  function Latest(hs: seq<Heuristic>, now: int, j: Job): map<HeuristicName, real> {
    if hs == [] then j.latestScores
    else
      var h := hs[|hs| - 1];
      Latest(hs[..|hs| - 1], now, j)[h.name := Apply(h, now, j)]
  }

  /** How a queue scores: the preferred queue leaves jobs as they are, the main queue weighs them. */
  datatype Scoring = Unscored | Weighted(heuristics: seq<Heuristic>)

  function Rescore(sc: Scoring, now: int, j: Job): (r: Job)
    ensures Core(r) == Core(j) && r.updateRunning == j.updateRunning
  {
    match sc
    case Unscored => j
    case Weighted(hs) => j.(score := Total(hs, now, j), latestScores := Latest(hs, now, j))
  }

  function RescoreAll(sc: Scoring, now: int, q: seq<Job>): (r: seq<Job>)
    ensures |r| == |q| && forall i :: 0 <= i < |q| ==> r[i] == Rescore(sc, now, q[i])
  {
    if q == [] then [] else [Rescore(sc, now, q[0])] + RescoreAll(sc, now, q[1..])
  }

  /** The weights the component is configured with, in the order the heuristics are registered. */
  const CONFIGURED := [Heuristic(ENTRANCE_TIME, 0.5), Heuristic(PRIORITY, 0.5)]

  class HeuristicRunner {
    var heuristicsWeights: map<HeuristicName, real>
    var heuristicMap: seq<Heuristic>

    constructor (weights: map<HeuristicName, real>)
      ensures heuristicsWeights == weights && heuristicMap == []
    {
      heuristicsWeights, heuristicMap := weights, [];
    }

    /** A missing or zero weight leaves the heuristic out. */
    method AddHeuristicToQueue(name: HeuristicName)
      modifies this`heuristicMap
      ensures heuristicMap == old(heuristicMap) +
              if name in heuristicsWeights && heuristicsWeights[name] != 0.0
              then [Heuristic(name, heuristicsWeights[name])] else []
    {
      if name in heuristicsWeights && heuristicsWeights[name] != 0.0 {
        heuristicMap := heuristicMap + [Heuristic(name, heuristicsWeights[name])];
      }
    }

    method Run(job: Job, now: int) returns (scored: Job)
      ensures scored == Rescore(Weighted(heuristicMap), now, job)
    {
      var result := 0.0;
      var latest := job.latestScores;
      for i := 0 to |heuristicMap|
        invariant result == Total(heuristicMap[..i], now, job)
        invariant latest == Latest(heuristicMap[..i], now, job)
      {
        var h := heuristicMap[i];
        assert heuristicMap[..i + 1][..i] == heuristicMap[..i];
        var heuristicScore := Apply(h, now, job);
        latest := latest[h.name := heuristicScore];
        result := result + heuristicScore;
      }
      assert heuristicMap[..|heuristicMap|] == heuristicMap;
      scored := job.(score := result, latestScores := latest);
    }
  }

  /** Registering both heuristics under the configured weights gives `CONFIGURED`. */
  method ConfiguredRunner() returns (r: HeuristicRunner)
    ensures fresh(r) && r.heuristicMap == CONFIGURED
  {
    r := new HeuristicRunner(map[PRIORITY := 0.5, ENTRANCE_TIME := 0.5]);
    r.AddHeuristicToQueue(ENTRANCE_TIME);
    r.AddHeuristicToQueue(PRIORITY);
  }
}
