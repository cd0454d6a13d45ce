/** Runs in which a job overtakes an eligible one by more than the span: a promotion and two resumed checks. */
module DispatchOvertakingRuns {
  import opened Wrappers
  import opened DriverJobs
  import opened DriverQueue
  import opened StableSort
  import opened DispatchModel
  import opened DispatchConservation
  import opened DispatchAddressing
  import opened DispatchPromotion
  import opened DispatchOrder
  import opened DispatchOvertaking

  const LATE := SPAN + 10
  const NOW := LATE + 1

  /** A pipeline of which a run entered at time 1, and one of which a run entered more than the span later. */
  const EARLY_PIPELINE := Pipeline("early", "main", [], 3, false, 1)
  const HELD_PIPELINE := Pipeline("late", "main", [], 3, true, LATE)
  const LATE_PIPELINE := Pipeline("late", "main", [], 3, false, LATE)

  /** A job as it waits in main, scored at `NOW`. */
  function Queued(id: string, p: Pipeline): Job {
    Rescore(Weighted(CONFIGURED), NOW, PipelineToQueueAdapter(id, p, NOW))
  }

  lemma QueuedData(id: string, p: Pipeline)
    requires p.startTime != 0 && 1 <= p.priority <= 5
    ensures var j := Queued(id, p);
            && j.jobId == id && j.pipelineName == p.name && j.experimentName == p.experimentName
            && j.maxExceeded == p.maxExceeded && j.entranceTime == p.startTime && j.priority == p.priority
            && j.updateRunning == 0 && j.score == ScoreAt(NOW, j)
  {
    var raw := PipelineToQueueAdapter(id, p, NOW);
    var j := Queued(id, p);
    assert Core(j) == Core(raw);
    assert Core(j).jobId == id && Core(j).pipelineName == p.name && Core(j).experimentName == p.experimentName;
    assert Core(j).maxExceeded == p.maxExceeded && Core(j).entranceTime == p.startTime;
    assert Core(j).priority == p.priority;
    TotalIgnores(CONFIGURED, NOW, j, raw);
  }

  lemma LatestIs(t: int, j: Job)
    ensures Latest(CONFIGURED, t, j) ==
            j.latestScores[ENTRANCE_TIME := EntranceTimeScore(0.5, t, j)][PRIORITY := PriorityScore(0.5, j)]
  {
    assert CONFIGURED[..1] == [Heuristic(ENTRANCE_TIME, 0.5)] && CONFIGURED[..1][..0] == [];
    assert Latest(CONFIGURED[..1], t, j) == j.latestScores[ENTRANCE_TIME := EntranceTimeScore(0.5, t, j)];
  }

  /** Scoring a scored job again at the same instant changes nothing. */
  lemma RescoreTwice(id: string, p: Pipeline)
    ensures Rescore(Weighted(CONFIGURED), NOW, Queued(id, p)) == Queued(id, p)
  {
    var raw := PipelineToQueueAdapter(id, p, NOW);
    var j := Queued(id, p);
    assert Core(j) == Core(raw);
    TotalIgnores(CONFIGURED, NOW, j, raw);
    LatestIs(NOW, raw);
    LatestIs(NOW, j);
    assert j.priority == raw.priority && j.entranceTime == raw.entranceTime;
  }

  /** An arrival while the consumer is busy: the job joins the scored ones, which are sorted again. */
  lemma BusyArrival(s: State, id: string, p: Pipeline)
    requires !s.consumerActive && forall x :: x in s.main ==> Rescore(Weighted(CONFIGURED), NOW, x) == x
    ensures Step(s, CONFIGURED, Arrival(id, p, NOW))
            == s.(main := SortDesc(s.main + [Queued(id, p)], ScoreOf))
  {
    var raw := PipelineToQueueAdapter(id, p, NOW);
    var scored := RescoreAll(Weighted(CONFIGURED), NOW, s.main + [raw]);
    assert forall i :: 0 <= i < |s.main| ==> s.main[i] in s.main;
    assert scored == s.main + [Queued(id, p)];
  }

  /** With the consumer busy and main empty, two jobs arrive one after the other. */
  lemma TwoArrivals(start: seq<Event>, a: string, p: Pipeline, b: string, q: Pipeline)
    requires Run(EMPTY, CONFIGURED, start) == EMPTY.(consumerActive := false)
    ensures Run(EMPTY, CONFIGURED, start + [Arrival(a, p, NOW)]) == State([], [Queued(a, p)], [], [], false, map[])
    ensures Run(EMPTY, CONFIGURED, start + [Arrival(a, p, NOW)] + [Arrival(b, q, NOW)])
            == State([], SortDesc([Queued(a, p), Queued(b, q)], ScoreOf), [], [], false, map[])
  {
    RunThen(EMPTY, CONFIGURED, start, Arrival(a, p, NOW));
    FirstArrival(EMPTY.(consumerActive := false), a, p, Queued(a, p));
    RunThen(EMPTY, CONFIGURED, start + [Arrival(a, p, NOW)], Arrival(b, q, NOW));
    RescoreTwice(a, p);
    SecondArrival(State([], [Queued(a, p)], [], [], false, map[]), Queued(a, p), b, q, Queued(b, q));
  }

  lemma FirstArrival(s: State, id: string, p: Pipeline, x: Job)
    requires s == EMPTY.(consumerActive := false) && x == Queued(id, p)
    ensures Step(s, CONFIGURED, Arrival(id, p, NOW)) == State([], [x], [], [], false, map[])
  {
    BusyArrival(s, id, p);
    SortedOne(x);
  }

  lemma SortedOne(x: Job)
    ensures SortDesc([] + [x], ScoreOf) == [x]
  {
    assert [] + [x] == [x] && [x][1..] == [];
  }

  lemma SecondArrival(s: State, x: Job, id: string, p: Pipeline, y: Job)
    requires s == State([], [x], [], [], false, map[]) && y == Queued(id, p)
    requires Rescore(Weighted(CONFIGURED), NOW, x) == x
    ensures Step(s, CONFIGURED, Arrival(id, p, NOW)) == State([], SortDesc([x, y], ScoreOf), [], [], false, map[])
  {
    BusyArrival(s, id, p);
    assert [x] + [y] == [x, y];
  }

  lemma Busy(hs: seq<Heuristic>)
    ensures Run(EMPTY, hs, [ConsumerWaiting]) == EMPTY.(consumerActive := false)
  {
    assert [ConsumerWaiting][..0] == [];
  }

  /** The early job outranks the late one, so it is sorted in front of it. */
  lemma EarlyFirst(a: string, b: string, late: Pipeline)
    requires late == HELD_PIPELINE || late == LATE_PIPELINE
    ensures Queued(a, EARLY_PIPELINE).score > Queued(b, late).score
    ensures !FairTo(Queued(b, late), Queued(a, EARLY_PIPELINE), NOW)
  {
    QueuedData(a, EARLY_PIPELINE);
    QueuedData(b, late);
    OutranksIff(NOW, Queued(a, EARLY_PIPELINE), Queued(b, late));
  }

  // ---------------------------------------------------------------- a promotion

  const BUSY_RUN := [ConsumerWaiting] + [Arrival("a", EARLY_PIPELINE, NOW)] + [Arrival("b", EARLY_PIPELINE, NOW)]

  lemma SortedTwo(a: Job, b: Job)
    requires a.score >= b.score
    ensures SortDesc([a, b], ScoreOf) == [a, b]
  {
    var q := [a, b];
    forall i, j | 0 <= i < j < |q| ensures ScoreOf(q[i]) >= ScoreOf(q[j]) {
    }
    SortDescFixpoint(q, ScoreOf);
  }

  lemma SortedThree(a: Job, b: Job, j: Job)
    requires a.score >= b.score >= j.score
    ensures SortDesc([a, b, j], ScoreOf) == [a, b, j]
  {
    var q := [a, b, j];
    forall i, k | 0 <= i < k < |q| ensures ScoreOf(q[i]) >= ScoreOf(q[k]) {
    }
    SortDescFixpoint(q, ScoreOf);
  }

  /** An arrival that ranks last joins two waiting jobs at the end. */
  lemma ThirdArrival(s: State, a: Job, b: Job, id: string, p: Pipeline, j: Job)
    requires s == State([], [a, b], [], [], false, map[]) && j == Queued(id, p)
    requires Rescore(Weighted(CONFIGURED), NOW, a) == a && Rescore(Weighted(CONFIGURED), NOW, b) == b
    requires a.score >= b.score >= j.score
    ensures Step(s, CONFIGURED, Arrival(id, p, NOW)) == State([], [a, b, j], [], [], false, map[])
  {
    BusyArrival(s, id, p);
    AppendedThird(s, a, b, j);
  }

  lemma AppendedThird(s: State, a: Job, b: Job, j: Job)
    requires s.main == [a, b] && a.score >= b.score >= j.score
    ensures s.(main := SortDesc(s.main + [j], ScoreOf)) == s.(main := [a, b, j])
  {
    SortedThree(a, b, j);
    assert [a, b] + [j] == [a, b, j];
  }

  /** Two early eligible jobs and a late one that is held back wait while the consumer is busy. */
  lemma ThreeWait()
    ensures Run(EMPTY, CONFIGURED, BUSY_RUN + [Arrival("j", HELD_PIPELINE, NOW)])
            == State([], [Queued("a", EARLY_PIPELINE), Queued("b", EARLY_PIPELINE), Queued("j", HELD_PIPELINE)],
                     [], [], false, map[])
  {
    var a, b, j := Queued("a", EARLY_PIPELINE), Queued("b", EARLY_PIPELINE), Queued("j", HELD_PIPELINE);
    Busy(CONFIGURED);
    TwoArrivals([ConsumerWaiting], "a", EARLY_PIPELINE, "b", EARLY_PIPELINE);
    QueuedData("a", EARLY_PIPELINE);
    QueuedData("b", EARLY_PIPELINE);
    SameAgeSameScore(a, b);
    EarlyFirst("b", "j", HELD_PIPELINE);
    SortedTwo(a, b);
    RescoreTwice("a", EARLY_PIPELINE);
    RescoreTwice("b", EARLY_PIPELINE);
    RunThen(EMPTY, CONFIGURED, BUSY_RUN, Arrival("j", HELD_PIPELINE, NOW));
    ThirdArrival(State([], [a, b], [], [], false, map[]), a, b, "j", HELD_PIPELINE, j);
  }

  lemma SameAgeSameScore(a: Job, b: Job)
    requires PriorityOk(a) && a.priority == b.priority && a.entranceTime == b.entranceTime
    requires a.score == ScoreAt(NOW, a) && b.score == ScoreAt(NOW, b)
    ensures a.score == b.score
  {
    ScoreIsLinear(NOW, a);
    ScoreIsLinear(NOW, b);
  }

  lemma WithoutFirst(a: Job, b: Job, j: Job)
    requires a.jobId != b.jobId && a.jobId != j.jobId
    ensures Without([a, b, j], a.jobId) == [b, j]
  {
    assert [a, b, j][1..] == [b, j] && [b, j][1..] == [j] && [j][1..] == [];
  }

  /** The consumer becomes active and gets the first of three. */
  lemma FirstOfThree(a: Job, b: Job, j: Job)
    requires !a.maxExceeded && a.updateRunning == 0 && a.jobId != b.jobId && a.jobId != j.jobId
    ensures Step(State([], [a, b, j], [], [], false, map[]), CONFIGURED, ConsumerActive)
            == State([], [b, j], [a], [], true, map[])
  {
    var s := State([], [a, b, j], [], [], true, map[]);
    assert FirstEligible(s.main) == Some(a);
    WithoutFirst(a, b, j);
    assert a.(updateRunning := 0) == a && [] + [a] == [a];
  }

  const PROMOTING_RUN := BUSY_RUN + [Arrival("j", HELD_PIPELINE, NOW)] + [ConsumerActive]

  lemma PromotingState()
    ensures Run(EMPTY, CONFIGURED, PROMOTING_RUN)
            == State([], [Queued("b", EARLY_PIPELINE), Queued("j", HELD_PIPELINE)],
                     [Queued("a", EARLY_PIPELINE)], [], true, map[])
  {
    ThreeWait();
    QueuedData("a", EARLY_PIPELINE);
    QueuedData("b", EARLY_PIPELINE);
    QueuedData("j", HELD_PIPELINE);
    RunThen(EMPTY, CONFIGURED, BUSY_RUN + [Arrival("j", HELD_PIPELINE, NOW)], ConsumerActive);
    FirstOfThree(Queued("a", EARLY_PIPELINE), Queued("b", EARLY_PIPELINE), Queued("j", HELD_PIPELINE));
  }

  /** A good run in which exactly the ids `ids` have arrived, with priorities in range. */
  ghost predicate GoodWith(events: seq<Event>, ids: set<string>) {
    && GoodRun(EMPTY, events)
    && (forall id :: ArrivedIn(events, IdIs(id)) <= if id in ids then 1 else 0)
    && (forall i :: 0 <= i < |events| ==> InRange(events[i]))
  }

  lemma GoodWithArrival(before: seq<Event>, ids: set<string>, id: string, p: Pipeline)
    requires GoodWith(before, ids) && id !in ids && id != "" && 1 <= p.priority <= 5
    ensures GoodWith(before + [Arrival(id, p, NOW)], ids + {id})
  {
    var e := Arrival(id, p, NOW);
    forall x
      ensures Waits(EMPTY, IdIs(x)) + ArrivedIn(before, IdIs(x)) + Arrives(e, IdIs(x)) <= 1
      ensures ArrivedIn(before + [e], IdIs(x)) <= if x in ids + {id} then 1 else 0
    {
      ArrivedThen(before, e, IdIs(x));
      assert ArrivedIn(before, IdIs(x)) <= if x in ids then 1 else 0;
    }
    GoodThen(EMPTY, before, e);
  }

  lemma GoodWithout(before: seq<Event>, ids: set<string>, e: Event)
    requires GoodWith(before, ids) && (e.ConsumerWaiting? || e.ConsumerActive?)
    ensures GoodWith(before + [e], ids)
  {
    forall x
      ensures Waits(EMPTY, IdIs(x)) + ArrivedIn(before, IdIs(x)) + Arrives(e, IdIs(x)) <= 1
      ensures ArrivedIn(before + [e], IdIs(x)) <= if x in ids then 1 else 0
    {
      ArrivedThen(before, e, IdIs(x));
      assert ArrivedIn(before, IdIs(x)) <= if x in ids then 1 else 0;
    }
    GoodThen(EMPTY, before, e);
  }

  lemma NothingIsGood()
    ensures GoodWith([], {})
  {
  }

  lemma PromotingRunIsGood()
    ensures GoodWith(PROMOTING_RUN, {"a", "b", "j"})
  {
    NothingIsGood();
    GoodWithout([], {}, ConsumerWaiting);
    assert [] + [ConsumerWaiting] == [ConsumerWaiting];
    GoodWithArrival([ConsumerWaiting], {}, "a", EARLY_PIPELINE);
    assert {} + {"a"} == {"a"};
    GoodWithArrival([ConsumerWaiting] + [Arrival("a", EARLY_PIPELINE, NOW)], {"a"}, "b", EARLY_PIPELINE);
    assert {"a"} + {"b"} == {"a", "b"};
    GoodWithArrival(BUSY_RUN, {"a", "b"}, "j", HELD_PIPELINE);
    assert {"a", "b"} + {"j"} == {"a", "b", "j"};
    GoodWithout(BUSY_RUN + [Arrival("j", HELD_PIPELINE, NOW)], {"a", "b", "j"}, ConsumerActive);
  }

  /**
   * When a job of the late pipeline finishes after this run, the held-back job is handed out ahead of an eligible
   * one that entered more than the span earlier.
   */
  lemma PromotionMayOvertake()
    ensures GoodRun(EMPTY, PROMOTING_RUN)
    ensures forall i :: 0 <= i < |PROMOTING_RUN| ==> InRange(PROMOTING_RUN[i])
    ensures var s := Run(EMPTY, CONFIGURED, PROMOTING_RUN);
            Overtakes(s, Step(s, CONFIGURED, Finished("main", "late")), NOW)
  {
    PromotingRunIsGood();
    PromotingState();
    RunAddressable(EMPTY, CONFIGURED, PROMOTING_RUN);
    QueuedData("b", EARLY_PIPELINE);
    QueuedData("j", HELD_PIPELINE);
    EarlyFirst("b", "j", HELD_PIPELINE);
    SecondPromoted(Run(EMPTY, CONFIGURED, PROMOTING_RUN), Queued("b", EARLY_PIPELINE), Queued("j", HELD_PIPELINE));
  }

  lemma SecondPromoted(s: State, b: Job, j: Job)
    requires Addressable(s) && s.preferred == [] && s.main == [b, j] && s.active == map[] && s.consumerActive
    requires !b.maxExceeded && j.maxExceeded && j.experimentName == "main" && j.pipelineName == "late"
    requires !FairTo(j, b, NOW)
    ensures Overtakes(s, Step(s, CONFIGURED, Finished("main", "late")), NOW)
  {
    LetRunSecond(s, b, j);
    PromotionOvertakesIff(s, NOW, "main", "late");
    assert s.main[0] == b && b in s.main;
    StepFinished(s, "main", "late");
  }

  lemma StepFinished(s: State, experiment: string, name: string)
    ensures Step(s, CONFIGURED, Finished(experiment, name)) == CheckMaxExceeded(s, experiment, name)
  {
  }

  lemma LetRunSecond(s: State, b: Job, j: Job)
    requires s.preferred == [] && s.main == [b, j] && s.active == map[] && !b.maxExceeded
    requires j.maxExceeded && j.experimentName == "main" && j.pipelineName == "late"
    ensures LetRunFromMain(s, "main", "late") == Some(j)
  {
    assert [b, j][1..] == [j];
    assert FindHeld(s.main, "main", "late") == 1;
    assert CheckMaxExceededIn(s, "main", "late", false, PreferredQ) == (s, false);
  }

  // ---------------------------------------------------------------- a resumed check

  const PICKING_RUN := [ConsumerWaiting] + [Arrival("j", LATE_PIPELINE, NOW)]
  const RESUMING_RUN := PICKING_RUN + [Arrival("a", EARLY_PIPELINE, NOW)]

  /**
   * A check picks the only job of main and waits; a job that entered long before arrives; the check goes on and hands
   * out its pick ahead of it.
   */
  lemma ResumedCheckMayOvertake()
    ensures var s := Run(EMPTY, CONFIGURED, RESUMING_RUN);
            var picked := Queued("j", LATE_PIPELINE);
            && FirstEligible(Run(EMPTY, CONFIGURED, RESUMING_RUN[..|PICKING_RUN|]).main) == Some(picked)
            && HasId(s.main, picked.jobId)
            && Overtakes(s, Step(s, CONFIGURED, CheckResumed(picked, MainQ)), NOW)
  {
    var j, a := Queued("j", LATE_PIPELINE), Queued("a", EARLY_PIPELINE);
    Busy(CONFIGURED);
    TwoArrivals([ConsumerWaiting], "j", LATE_PIPELINE, "a", EARLY_PIPELINE);
    assert RESUMING_RUN[..|PICKING_RUN|] == PICKING_RUN;
    QueuedData("a", EARLY_PIPELINE);
    QueuedData("j", LATE_PIPELINE);
    EarlyFirst("a", "j", LATE_PIPELINE);
    SwappedTwo(j, a);
    var s := Run(EMPTY, CONFIGURED, RESUMING_RUN);
    assert s == State([], [a, j], [], [], false, map[]);
    SecondHandedOut(s, a, j);
  }

  lemma SwappedTwo(j: Job, a: Job)
    requires a.score > j.score
    ensures SortDesc([j, a], ScoreOf) == [a, j]
  {
    assert [j, a][1..] == [a] && [a][1..] == [];
    assert SortDesc([a], ScoreOf) == [a];
    assert Insert(j, [], ScoreOf) == [j];
    assert Insert(j, [a], ScoreOf) == [a] + [j];
  }

  lemma SecondHandedOut(s: State, a: Job, j: Job)
    requires s == State([], [a, j], [], [], false, map[]) && !a.maxExceeded && !FairTo(j, a, NOW)
    requires a.jobId != j.jobId && j.updateRunning == 0
    ensures HasId(s.main, j.jobId) && Overtakes(s, Step(s, CONFIGURED, CheckResumed(j, MainQ)), NOW)
  {
    var u := CreateJob(s, j, MainQ);
    assert j.(updateRunning := 0) == j;
    assert HandedOut(s, u) == [j];
    assert s.main[1] == j && a in s.main && a in u.main;
    assert Step(s, CONFIGURED, CheckResumed(j, MainQ)) == u;
  }

  // ---------------------------------------------------------------- a pick that loses its slack

  /** The lowest priority, entered at time 1; and the highest, entered at the instant of its scoring. */
  const SLOW_PIPELINE := Pipeline("early", "main", [], 5, false, 1)
  const FRESH_PIPELINE := Pipeline("late", "main", [], 1, false, NOW)

  const FRESH_RUN := [ConsumerWaiting] + [Arrival("y", SLOW_PIPELINE, NOW)] + [Arrival("j", FRESH_PIPELINE, NOW)]
  const AGED_RUN := FRESH_RUN + [Arrival("z", EARLY_PIPELINE, NOW + 1)]

  /** At age zero the fresh job ranks first. */
  lemma FreshFirst()
    ensures Queued("j", FRESH_PIPELINE).score > Queued("y", SLOW_PIPELINE).score
  {
    QueuedData("j", FRESH_PIPELINE);
    QueuedData("y", SLOW_PIPELINE);
    OutranksIff(NOW, Queued("j", FRESH_PIPELINE), Queued("y", SLOW_PIPELINE));
  }

  lemma FreshState()
    ensures Run(EMPTY, CONFIGURED, FRESH_RUN)
            == State([], [Queued("j", FRESH_PIPELINE), Queued("y", SLOW_PIPELINE)], [], [], false, map[])
  {
    Busy(CONFIGURED);
    TwoArrivals([ConsumerWaiting], "y", SLOW_PIPELINE, "j", FRESH_PIPELINE);
    FreshFirst();
    SwappedTwo(Queued("y", SLOW_PIPELINE), Queued("j", FRESH_PIPELINE));
  }

  /** With the consumer busy an arrival keeps the waiting jobs in main, scored anew, and the preferred queue. */
  lemma BusyKeeps(s: State, id: string, p: Pipeline, now: int, x: Job)
    requires !s.consumerActive && x in s.main
    ensures Step(s, CONFIGURED, Arrival(id, p, now)).preferred == s.preferred
    ensures Rescore(Weighted(CONFIGURED), now, x) in Step(s, CONFIGURED, Arrival(id, p, now)).main
  {
    var all := s.main + [PipelineToQueueAdapter(id, p, now)];
    var scored := RescoreAll(Weighted(CONFIGURED), now, all);
    var i :| 0 <= i < |s.main| && s.main[i] == x;
    assert all[i] == x && scored[i] == Rescore(Weighted(CONFIGURED), now, x);
    assert scored[i] in multiset(scored);
    assert scored[i] in SortedByScore(scored);
  }

  /**
   * A check picks a job of age zero ahead of a much older one and waits; another arrival scores both again; the check
   * goes on and now overtakes the older job, which it saw.
   */
  lemma AgedPickMayOvertake()
    ensures var p, s := Run(EMPTY, CONFIGURED, AGED_RUN[..|FRESH_RUN|]), Run(EMPTY, CONFIGURED, AGED_RUN);
            var picked := Queued("j", FRESH_PIPELINE);
            && FirstEligible(p.main) == Some(picked)
            && Overtakes(s, Step(s, CONFIGURED, CheckResumed(picked, MainQ)), LastScored(0, AGED_RUN))
            && exists y :: LeftBehind(s, picked, MainQ, y) && WasInMain(p, y)
                        && !FairTo(picked, y, LastScored(0, AGED_RUN))
  {
    var j, x, e := Queued("j", FRESH_PIPELINE), Queued("y", SLOW_PIPELINE), Arrival("z", EARLY_PIPELINE, NOW + 1);
    FreshState();
    QueuedData("j", FRESH_PIPELINE);
    QueuedData("y", SLOW_PIPELINE);
    assert AGED_RUN[..|FRESH_RUN|] == FRESH_RUN;
    var p := Run(EMPTY, CONFIGURED, FRESH_RUN);
    assert p.main[1] == x && x in p.main;
    RunThen(EMPTY, CONFIGURED, FRESH_RUN, e);
    BusyKeeps(p, "z", EARLY_PIPELINE, NOW + 1, x);
    assert LastScored(0, AGED_RUN) == NOW + 1;
    SeenLeftBehind(p, Run(EMPTY, CONFIGURED, AGED_RUN), j, x, NOW + 1);
  }

  lemma SeenLeftBehind(p: State, s: State, j: Job, x: Job, now: int)
    requires x in p.main && s.preferred == [] && Rescore(Weighted(CONFIGURED), now, x) in s.main
    requires !x.maxExceeded && x.jobId != j.jobId && !FairTo(j, x, now)
    ensures Overtakes(s, Step(s, CONFIGURED, CheckResumed(j, MainQ)), now)
    ensures exists y :: LeftBehind(s, j, MainQ, y) && WasInMain(p, y) && !FairTo(j, y, now)
  {
    var y := Rescore(Weighted(CONFIGURED), now, x);
    assert Core(y) == Core(x) && Core(x).jobId == y.jobId && Core(x).maxExceeded == y.maxExceeded;
    assert Core(x).entranceTime == y.entranceTime;
    assert LeftBehind(s, j, MainQ, y) && WasInMain(p, y) && !FairTo(j, y, now);
    PickOvertakesIff(s, now, j, MainQ);
    PickStep(s, j, MainQ);
  }
}
