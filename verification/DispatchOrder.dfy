/**
 * The order of the main queue over whole runs: two jobs compare by age and priority as one exact formula says,
 * and the queue is always sorted by scores taken at one instant.
 */
module DispatchOrder {
  import opened Wrappers
  import opened DriverJobs
  import opened DriverQueue
  import opened StableSort
  import opened DispatchModel

  const SPAN := 2880000
  const SLACK := 720

  function ScoreAt(t: int, j: Job): real { Total(CONFIGURED, t, j) }

  ghost predicate PriorityOk(j: Job) { 1 <= j.priority <= 5 }

  lemma ScoreAtIs(t: int, j: Job)
    ensures ScoreAt(t, j) == EntranceTimeScore(0.5, t, j) + PriorityScore(0.5, j)
  {
    assert CONFIGURED[..1] == [Heuristic(ENTRANCE_TIME, 0.5)];
    assert CONFIGURED[..1][..0] == [];
    assert Total(CONFIGURED[..1], t, j) == EntranceTimeScore(0.5, t, j);
  }

  lemma AgeScore(t: int, j: Job)
    ensures j.entranceTime != t ==> EntranceTimeScore(0.5, t, j) == (t - j.entranceTime) as real / 7200000.0
    ensures j.entranceTime == t ==> EntranceTimeScore(0.5, t, j) == 0.0001
  {
    var age := (t - j.entranceTime) as real;
    assert 0.5 * age / 3600000.0 == age / 7200000.0;
  }

  /** The difference of two scores does not depend on when they are taken. */
  lemma ScoreDifferenceIsConstant(t: int, u: int, a: Job, b: Job)
    requires a.entranceTime != t && a.entranceTime != u && b.entranceTime != t && b.entranceTime != u
    ensures ScoreAt(t, a) - ScoreAt(t, b) == ScoreAt(u, a) - ScoreAt(u, b)
  {
    ScoreAtIs(t, a); ScoreAtIs(t, b); ScoreAtIs(u, a); ScoreAtIs(u, b);
    AgeScore(t, a); AgeScore(t, b); AgeScore(u, a); AgeScore(u, b);
  }

  /** The age in milliseconds that the score sees; age zero counts as `SLACK`. */
  function AgeMs(t: int, j: Job): int { if j.entranceTime == t then SLACK else t - j.entranceTime }

  /** Exactly when a job outranks another: one step of priority weighs as much as 720,000 ms. */
  lemma OutranksIff(t: int, a: Job, b: Job)
    requires PriorityOk(a) && PriorityOk(b)
    ensures ScoreAt(t, a) > ScoreAt(t, b) <==> AgeMs(t, a) - AgeMs(t, b) > 720000 * (a.priority - b.priority)
  {
    ScoreIsLinear(t, a);
    ScoreIsLinear(t, b);
  }

  lemma ScoreIsLinear(t: int, j: Job)
    requires PriorityOk(j)
    ensures ScoreAt(t, j) == AgeMs(t, j) as real / 7200000.0 + 0.6 - 0.1 * j.priority as real
  {
    ScoreAtIs(t, j);
    AgeScore(t, j);
    assert PriorityScore(0.5, j) == 0.5 * (6 - j.priority) as real / 5.0;
  }

  /** A job outranks another whatever the priorities of both exactly when its age leads by more than the span. */
  lemma OutranksAlwaysIff(t: int, a: Job, b: Job)
    ensures (forall p, q :: 1 <= p <= 5 && 1 <= q <= 5 ==>
               ScoreAt(t, a.(priority := p)) > ScoreAt(t, b.(priority := q)))
            <==> AgeMs(t, a) - AgeMs(t, b) > SPAN
  {
    forall p, q | 1 <= p <= 5 && 1 <= q <= 5
      ensures ScoreAt(t, a.(priority := p)) > ScoreAt(t, b.(priority := q))
              <==> AgeMs(t, a) - AgeMs(t, b) > 720000 * (p - q)
    {
      OutranksIff(t, a.(priority := p), b.(priority := q));
    }
    assert (ScoreAt(t, a.(priority := 5)) > ScoreAt(t, b.(priority := 1))) <==> AgeMs(t, a) - AgeMs(t, b) > SPAN;
  }

  /** A job that entered that much earlier outranks the other whatever the priorities. */
  lemma EarlierOutranks(t: int, a: Job, b: Job)
    requires PriorityOk(a) && PriorityOk(b)
    requires a.entranceTime + SPAN + (if b.entranceTime == t then SLACK else 0) < b.entranceTime
    ensures ScoreAt(t, a) > ScoreAt(t, b)
  {
    OutranksIff(t, a, b);
  }

  /** The slack is needed: a job that enters at the scoring instant can outrank one 2,880,001 ms older. */
  lemma SlackIsNeeded(t: int, a: Job, b: Job)
    requires a.priority == 5 && b.priority == 1
    requires b.entranceTime == t && a.entranceTime + SPAN + 1 == b.entranceTime
    ensures ScoreAt(t, b) > ScoreAt(t, a)
  {
    OutranksIff(t, b, a);
  }

  /** The span is exact: at 2,880,000 ms the extreme priorities make a tie. */
  lemma SpanIsTight(t: int, a: Job, b: Job)
    requires a.priority == 5 && b.priority == 1
    requires a.entranceTime + SPAN == b.entranceTime && b.entranceTime != t && a.entranceTime != t
    ensures ScoreAt(t, b) == ScoreAt(t, a)
  {
    OutranksIff(t, a, b);
    OutranksIff(t, b, a);
  }

  // ---------------------------------------------------------------- the invariant

  ghost predicate JobScoredAt(j: Job, t: int) {
    PriorityOk(j) && j.score == ScoreAt(t, j)
  }

  /** Sorted by scores all taken at `t`. */
  ghost predicate ScoredAt(q: seq<Job>, t: int) {
    (forall j :: j in q ==> JobScoredAt(j, t)) && SortedDesc(q, ScoreOf)
  }

  ghost predicate PrioritiesOk(q: seq<Job>) {
    forall j :: j in q ==> PriorityOk(j)
  }

  /** Every job of the preferred queue scores 1. */
  ghost predicate PreferredOk(q: seq<Job>) {
    forall j :: j in q ==> PriorityOk(j) && j.score == 1.0
  }

  ghost predicate OrderOk(s: State, t: int) {
    ScoredAt(s.main, t) && PreferredOk(s.preferred)
  }

  lemma {:induction false} TotalIgnores(hs: seq<Heuristic>, t: int, j: Job, k: Job)
    requires Core(j) == Core(k)
    ensures Total(hs, t, j) == Total(hs, t, k)
  {
    assert j.priority == Core(j).priority && k.priority == Core(k).priority;
    assert j.entranceTime == Core(j).entranceTime && k.entranceTime == Core(k).entranceTime;
    if hs != [] {
      TotalIgnores(hs[..|hs| - 1], t, j, k);
    }
  }

  lemma RecalculatedScored(q: seq<Job>, t: int)
    requires PrioritiesOk(q)
    ensures ScoredAt(Recalculated(Weighted(CONFIGURED), t, q), t)
  {
    var scored := RescoreAll(Weighted(CONFIGURED), t, q);
    SortDescSorted(scored, ScoreOf);
    forall r | r in Recalculated(Weighted(CONFIGURED), t, q) ensures JobScoredAt(r, t) {
      assert r in multiset(scored);
      var i :| 0 <= i < |scored| && scored[i] == r;
      assert q[i] in q;
      assert r.priority == Core(r).priority && q[i].priority == Core(q[i]).priority;
      TotalIgnores(CONFIGURED, t, r, q[i]);
    }
  }

  lemma {:induction false} WithoutSorted(q: seq<Job>, id: string)
    requires SortedDesc(q, ScoreOf)
    ensures SortedDesc(Without(q, id), ScoreOf)
  {
    if q != [] {
      WithoutSorted(q[1..], id);
      var r := Without(q[1..], id);
      forall j | j in r ensures q[0].score >= j.score {
        assert j in q[1..];
        var i :| 0 <= i < |q[1..]| && q[1..][i] == j;
        assert ScoreOf(q[0]) >= ScoreOf(q[i + 1]);
      }
    }
  }

  lemma CreateJobOrder(s: State, t: int, job: Job, w: Which)
    requires OrderOk(s, t)
    ensures OrderOk(CreateJob(s, job, w), t)
  {
    WithoutSorted(s.main, job.jobId);
  }

  lemma DispatchNextOrder(s: State, t: int)
    requires OrderOk(s, t)
    ensures OrderOk(DispatchNext(s), t)
  {
    match FirstEligible(s.preferred)
    case Some(j) => CreateJobOrder(s, t, j, PreferredQ);
    case None =>
      match FirstEligible(s.main)
      case Some(j) => CreateJobOrder(s, t, j, MainQ);
      case None =>
  }

  lemma DequeueJobOrder(s: State, t: int, id: string)
    requires OrderOk(s, t)
    ensures OrderOk(DequeueJob(s, id), t)
  {
    if s.consumerActive {
      match if id == "" then None else FindJobByJobId(s, id)
      case Some(found) => CreateJobOrder(s, t, found.0, found.1);
      case None => DispatchNextOrder(s, t);
    }
  }

  lemma MarkOrder(s: State, t: int, w: Which, i: nat, mark: int)
    requires OrderOk(s, t) && i < |s.Q(w)|
    ensures OrderOk(Mark(s, w, i, mark), t)
  {
    var j := s.Q(w)[i];
    assert j in s.Q(w);
    if w == MainQ {
      TotalIgnores(CONFIGURED, t, j, j.(updateRunning := mark));
      var q := Mark(s, w, i, mark).main;
      forall x, y | 0 <= x < y < |q| ensures ScoreOf(q[x]) >= ScoreOf(q[y]) {
        assert ScoreOf(s.main[x]) >= ScoreOf(s.main[y]);
      }
    }
  }

  lemma CheckMaxExceededInOrder(s: State, t: int, experiment: string, name: string, increment: bool, w: Which)
    requires OrderOk(s, t)
    ensures OrderOk(CheckMaxExceededIn(s, experiment, name, increment, w).0, t)
  {
    var i := FindHeld(s.Q(w), experiment, name);
    if i < |s.Q(w)| {
      MarkOrder(s, t, w, i, 0);
      MarkOrder(s, t, w, i, 1);
      var u := if increment then Mark(s, w, i, 1) else s;
      DequeueJobOrder(u, t, u.Q(w)[i].jobId);
    }
  }

  lemma {:induction false} PromoteEachOrder(
      s: State, t: int, pipelines: seq<StoredPipeline>, snapshot: seq<Job>, w: Which)
    requires OrderOk(s, t) && forall p :: p in pipelines ==> FirstHeldOf(snapshot, p.name).Some?
    ensures OrderOk(PromoteEach(s, pipelines, snapshot, w), t)
    decreases |pipelines|
  {
    if pipelines != [] {
      var p := pipelines[0];
      CheckMaxExceededInOrder(s, t, FirstHeldOf(snapshot, p.name).value.experimentName, p.name, true, w);
      PromoteEachOrder(Promote(s, p, snapshot, w), t, pipelines[1..], snapshot, w);
    }
  }

  lemma {:induction false} PreferEachOrder(s: State, t: int, ids: seq<string>, i: nat)
    requires OrderOk(s, t) && i <= |s.preferred|
    ensures OrderOk(PreferEach(s, ids, i), t)
    decreases |ids|
  {
    if ids != [] {
      var id := ids[|ids| - 1];
      WithoutSorted(s.main, id);
      PreferEachOrder(PreferOne(s, id, i), t, ids[..|ids| - 1], i);
    }
  }

  /** During the un-prefer loop the main queue is not sorted; its jobs' priorities stay in range. */
  lemma {:induction false} UnpreferEachPriorities(s: State, ids: seq<string>)
    requires PrioritiesOk(s.main) && PreferredOk(s.preferred)
    ensures PrioritiesOk(UnpreferEach(s, ids).main) && PreferredOk(UnpreferEach(s, ids).preferred)
    decreases |ids|
  {
    if ids != [] {
      UnpreferEachPriorities(UnpreferOne(s, ids[0]), ids[1..]);
    }
  }

  /** When the main queue was last scored. */
  function ScoringTime(t: int, e: Event): int {
    if e.Arrival? || e.Unpreferring? then e.now else t
  }

  function LastScored(t: int, events: seq<Event>): int {
    if events == [] then t else ScoringTime(LastScored(t, events[..|events| - 1]), events[|events| - 1])
  }

  ghost predicate InRange(e: Event) { e.Arrival? ==> 1 <= e.pipeline.priority <= 5 }

  lemma ArriveOrder(s: State, t: int, job: Job, now: int)
    requires OrderOk(s, t) && 1 <= job.priority <= 5
    ensures OrderOk(Arrive(s, CONFIGURED, job, now), now)
  {
    RecalculatedScored(s.main + [job], now);
    DispatchNextOrder(s.(main := Recalculated(Weighted(CONFIGURED), now, s.main + [job])), now);
  }

  lemma CheckMaxExceededOrder(s: State, t: int, experiment: string, name: string)
    requires OrderOk(s, t)
    ensures OrderOk(CheckMaxExceeded(s, experiment, name), t)
  {
    CheckMaxExceededInOrder(s, t, experiment, name, false, PreferredQ);
    CheckMaxExceededInOrder(
      CheckMaxExceededIn(s, experiment, name, false, PreferredQ).0, t, experiment, name, false, MainQ);
  }

  lemma CheckQueueOrder(s: State, t: int, pending: Which -> int)
    requires OrderOk(s, t)
    ensures OrderOk(CheckQueue(s, pending), t)
  {
    if FirstEligible(s.preferred).Some? {
      CreateJobOrder(s, t, FirstEligible(s.preferred).value, PreferredQ);
    }
    if FirstEligible(s.main).Some? {
      CreateJobOrder(s, t, FirstEligible(s.main).value, MainQ);
    }
  }

  lemma StepOrder(s: State, t: int, e: Event)
    requires OrderOk(s, t) && InRange(e)
    ensures OrderOk(Step(s, CONFIGURED, e), ScoringTime(t, e))
  {
    match e
    case Arrival(id, pipeline, now) => ArriveOrder(s, t, PipelineToQueueAdapter(id, pipeline, now), now);
    case Stopping(id) => WithoutSorted(s.main, id);
    case Preferring(ids, place) => PreferEachOrder(s, t, ids, GetIndex(s.preferred, place));
    case Unpreferring(ids, now) =>
      UnpreferEachPriorities(s, ids);
      RecalculatedScored(UnpreferEach(s, ids).main, now);
    case ConsumerWaiting =>
    case ConsumerActive => DispatchNextOrder(s.(consumerActive := true), t);
    case Finished(experiment, name) => CheckMaxExceededOrder(s, t, experiment, name);
    case IntervalOn(w, snapshot, redis, stored) =>
      var pipelines := Relevant(stored, snapshot);
      PromoteEachOrder(s.(active := Refresh(s.active, pipelines, redis)), t, pipelines, snapshot, w);
    case Checking(pending) => CheckQueueOrder(s, t, pending);
    case CheckResumed(picked, w) => CreateJobOrder(s, t, picked, w);
  }

  /** From a sorted start, the main queue is sorted by scores taken at its last scoring after every run. */
  lemma {:induction false} MainStaysSorted(start: State, t: int, events: seq<Event>)
    requires OrderOk(start, t) && forall i :: 0 <= i < |events| ==> InRange(events[i])
    ensures OrderOk(Run(start, CONFIGURED, events), LastScored(t, events))
  {
    if events != [] {
      var before, e := events[..|events| - 1], events[|events| - 1];
      assert forall i :: 0 <= i < |before| ==> before[i] == events[i];
      MainStaysSorted(start, t, before);
      StepOrder(Run(start, CONFIGURED, before), LastScored(t, before), e);
    }
  }
}
