/** What every run of a task queue keeps. */
module TaskQueueRuns {
  import opened Wrappers
  import opened Sequences
  import opened StableSort
  import opened AlgorithmTasks
  import opened TaskQueue

  /** The tasks that wait, and those sent to the workers. */
  datatype System = System(waiting: seq<Task>, sent: seq<Task>)

  datatype Event =
    | Arrive(tasks: seq<Task>, now: int)
    | Remove(refs: seq<TaskRef>)
    | Send
    | Cycle(now: int)
    | Stuck(i: nat, jobStatus: Option<string>, now: int)

  function Step(s: System, e: Event): System {
    match e
    case Arrive(ts, now) => s.(waiting := Added(CONFIGURED, s.waiting, ts, now))
    case Remove(refs) => s.(waiting := Keep(s.waiting, Requests(refs)))
    case Send => if s.waiting == [] then s else System(s.waiting[1..], s.sent + [s.waiting[0]])
    case Cycle(now) => s.(waiting := Cycled(CONFIGURED, s.waiting, now))
    case Stuck(i, jobStatus, now) =>
      if i >= |s.sent| then s
      else System(Added(CONFIGURED, s.waiting, Requeued(s.sent[i], jobStatus), now), s.sent[..i] + s.sent[i + 1..])
  }

  function Run(s: System, es: seq<Event>): System
    decreases |es|
  {
    if es == [] then s else Run(Step(s, es[0]), es[1..])
  }

  const EMPTY := System([], [])

  // ---------------------------------------------------------------- order

  lemma {:induction false} KeepSorted(q: seq<Task>, ps: seq<Pattern>)
    requires SortedDesc(q, ScoreOf)
    ensures SortedDesc(Keep(q, ps), ScoreOf)
  {
    if q != [] {
      KeepSorted(q[1..], ps);
      forall t | t in Keep(q[1..], ps) ensures q[0].score >= t.score {
        KeepHas(q[1..], ps, t);
        var i :| 0 <= i < |q[1..]| && q[1..][i] == t;
        assert ScoreOf(q[0]) >= ScoreOf(q[i + 1]);
      }
    }
  }

  lemma AddedSorted(q: seq<Task>, ts: seq<Task>, now: int)
    requires SortedDesc(q, ScoreOf)
    ensures SortedDesc(Added(CONFIGURED, q, ts, now), ScoreOf)
  {
    SortDescSorted(Keep(q, Duplicates(ts)) + ScoredAll(CONFIGURED, now, ts), ScoreOf);
  }

  lemma StepSorted(s: System, e: Event)
    requires SortedDesc(s.waiting, ScoreOf)
    ensures SortedDesc(Step(s, e).waiting, ScoreOf)
  {
    match e
    case Arrive(ts, now) => AddedSorted(s.waiting, ts, now);
    case Remove(refs) => KeepSorted(s.waiting, Requests(refs));
    case Send =>
    case Cycle(now) => SortDescSorted(ScoredAll(CONFIGURED, now, EnrichedAll(s.waiting)), ScoreOf);
    case Stuck(i, jobStatus, now) =>
      if i < |s.sent| {
        AddedSorted(s.waiting, Requeued(s.sent[i], jobStatus), now);
      }
  }

  /** After every run the queue is sorted by stored score, so that the next task sent has a maximal one. */
  lemma {:induction false} RunSorted(s: System, es: seq<Event>)
    requires SortedDesc(s.waiting, ScoreOf)
    ensures SortedDesc(Run(s, es).waiting, ScoreOf)
    ensures var q := Run(s, es).waiting; forall t :: t in q ==> q[0].score >= t.score
    decreases |es|
  {
    if es != [] {
      StepSorted(s, es[0]);
      RunSorted(Step(s, es[0]), es[1..]);
    } else {
      forall t | t in s.waiting ensures s.waiting[0].score >= t.score {
        var i :| 0 <= i < |s.waiting| && s.waiting[i] == t;
        assert i > 0 ==> ScoreOf(s.waiting[0]) >= ScoreOf(s.waiting[i]);
      }
    }
  }

  lemma {:induction false} WithKeyAppend(a: seq<Task>, b: seq<Task>, v: real)
    ensures WithKey(a + b, ScoreOf, v) == WithKey(a, ScoreOf, v) + WithKey(b, ScoreOf, v)
  {
    if a == [] {
      assert a + b == b;
    } else {
      WithKeyAppend(a[1..], b, v);
      assert (a + b)[1..] == a[1..] + b && (a + b)[0] == a[0];
      var first := if ScoreOf(a[0]) == v then [a[0]] else [];
      Associative(first, WithKey(a[1..], ScoreOf, v), WithKey(b, ScoreOf, v));
    }
  }

  /** Among equal scores, the tasks that waited stay in order and new ones come after them. */
  lemma AddedTies(q: seq<Task>, ts: seq<Task>, now: int, v: real)
    requires ts != []
    ensures WithKey(Added(CONFIGURED, q, ts, now), ScoreOf, v) ==
            WithKey(Keep(q, Duplicates(ts)), ScoreOf, v) + WithKey(ScoredAll(CONFIGURED, now, ts), ScoreOf, v)
  {
    SortDescStable(Keep(q, Duplicates(ts)) + ScoredAll(CONFIGURED, now, ts), ScoreOf, v);
    WithKeyAppend(Keep(q, Duplicates(ts)), ScoredAll(CONFIGURED, now, ts), v);
  }

  /** A cycle, too, only reorders tasks whose scores differ. */
  lemma CycledTies(q: seq<Task>, now: int, v: real)
    ensures WithKey(Cycled(CONFIGURED, q, now), ScoreOf, v)
            == WithKey(ScoredAll(CONFIGURED, now, EnrichedAll(q)), ScoreOf, v)
  {
    SortDescStable(ScoredAll(CONFIGURED, now, EnrichedAll(q)), ScoreOf, v);
  }

  // ---------------------------------------------------------------- prescheduled tasks

  /** What the request format and the clock guarantee of a task scored at `now`. */
  predicate Sane(t: Task, now: int) {
    1 <= t.priority <= 5 && t.attempts >= 0 && t.entranceTime <= now
  }

  /** A prescheduled task has score 0, any other a positive one. */
  predicate Fair(t: Task) {
    if t.status == PRESCHEDULE then t.score == 0.0 else t.score > 0.0
  }

  lemma ApplyIsNatural(h: Heuristic, now: int, t: Task)
    requires Sane(t, now) && h.weight >= 0.0
    ensures Apply(h, now, t) >= 0.0
  {
    match h.name
    case BATCH =>
    case CURRENT_BATCH_PLACE =>
      if t.batchPlace.BatchPlace? {
        var x := Abs(t.batchPlace.currentPlace - (t.batchPlace.currentLength + 1));
        Ratio(x, t.batchPlace.currentLength);
        Product(h.weight, x as real / t.batchPlace.currentLength as real);
      }
    case ATTEMPTS => Product(h.weight, t.attempts as real);
    case ENTRANCE_TIME => Product(h.weight, (now - t.entranceTime) as real);
    case PRIORITY => Product(h.weight, Abs(MAX_PRIORITY + 1 - t.priority) as real);
  }

  lemma Product(a: real, b: real)
    requires a >= 0.0 && b >= 0.0
    ensures a * b >= 0.0
  {
  }

  lemma Ratio(a: int, b: int)
    requires a >= 0 && b >= 1
    ensures a as real / b as real >= 0.0
  {
  }

  lemma {:induction false} TotalAtLeast(hs: seq<Heuristic>, now: int, t: Task, k: int)
    requires k < |hs| && forall i :: 0 <= i < |hs| ==> Apply(hs[i], now, t) >= 0.0
    ensures Total(hs, now, t) >= 0.0
    ensures k >= 0 ==> Total(hs, now, t) >= Apply(hs[k], now, t)
  {
    if hs != [] {
      TotalAtLeast(hs[..|hs| - 1], now, t, if k < |hs| - 1 then k else -1);
    }
  }

  lemma ScoredIsFair(t: Task, now: int)
    requires Sane(t, now)
    ensures Fair(Scored(CONFIGURED, now, t))
  {
    if t.status != PRESCHEDULE {
      forall i | 0 <= i < |CONFIGURED| ensures Apply(CONFIGURED[i], now, t) >= 0.0 {
        ApplyIsNatural(CONFIGURED[i], now, t);
      }
      TotalAtLeast(CONFIGURED, now, t, 3);
      assert CONFIGURED[3] == Heuristic(PRIORITY, 0.4);
      assert Abs(MAX_PRIORITY + 1 - t.priority) >= 1;
    }
  }

  /** The times of events do not run back, and tasks arrive sane. */
  ghost predicate GoodEvent(e: Event, clock: int) {
    match e
    case Arrive(ts, now) => now >= clock && forall t :: t in ts ==> Sane(t, now)
    case Cycle(now) => now >= clock
    case Stuck(i, jobStatus, now) => now >= clock
    case _ => true
  }

  function Clock(e: Event, clock: int): int {
    match e
    case Arrive(ts, now) => now
    case Cycle(now) => now
    case Stuck(i, jobStatus, now) => now
    case _ => clock
  }

  ghost predicate GoodRun(es: seq<Event>, clock: int)
    decreases |es|
  {
    es != [] ==> GoodEvent(es[0], clock) && GoodRun(es[1..], Clock(es[0], clock))
  }

  ghost predicate AllFair(s: System, clock: int) {
    && (forall t :: t in s.waiting ==> Fair(t) && Sane(t, clock))
    && (forall t :: t in s.sent ==> Sane(t, clock))
  }

  lemma AddedHas(q: seq<Task>, ts: seq<Task>, now: int, t: Task)
    requires t in Added(CONFIGURED, q, ts, now)
    ensures t in q || exists u :: u in ts && t == Scored(CONFIGURED, now, u)
  {
    if ts != [] {
      var kept, scored := Keep(q, Duplicates(ts)), ScoredAll(CONFIGURED, now, ts);
      assert t in multiset(SortDesc(kept + scored, ScoreOf));
      assert t in kept + scored;
      KeepHas(q, Duplicates(ts), t);
      if t in scored {
        var i :| 0 <= i < |scored| && scored[i] == t;
        assert ts[i] in ts;
      }
    }
  }

  lemma AddedFair(q: seq<Task>, ts: seq<Task>, now: int)
    requires forall t :: t in q ==> Fair(t) && Sane(t, now)
    requires forall t :: t in ts ==> Sane(t, now)
    ensures forall t :: t in Added(CONFIGURED, q, ts, now) ==> Fair(t) && Sane(t, now)
  {
    forall t | t in Added(CONFIGURED, q, ts, now) ensures Fair(t) && Sane(t, now) {
      AddedHas(q, ts, now, t);
      if t !in q {
        var u :| u in ts && t == Scored(CONFIGURED, now, u);
        ScoredIsFair(u, now);
      }
    }
  }

  lemma CycledHas(q: seq<Task>, now: int, t: Task)
    requires t in Cycled(CONFIGURED, q, now)
    ensures exists i :: 0 <= i < |q| && t == Scored(CONFIGURED, now, EnrichedAll(q)[i])
  {
    var scored := ScoredAll(CONFIGURED, now, EnrichedAll(q));
    assert t in multiset(SortDesc(scored, ScoreOf));
    assert t in scored;
    var i :| 0 <= i < |scored| && scored[i] == t;
  }

  /** A cycle changes nothing of a task but its batch place. */
  lemma EnrichedKeeps(q: seq<Task>, i: nat)
    requires i < |q|
    ensures EnrichedAll(q)[i] == q[i].(batchPlace := EnrichedAll(q)[i].batchPlace)
  {
  }

  lemma SaneLater(ts: seq<Task>, a: int, b: int)
    requires a <= b && forall t :: t in ts ==> Sane(t, a)
    ensures forall t :: t in ts ==> Sane(t, b)
  {
  }

  lemma CycledFair(q: seq<Task>, now: int)
    requires forall t :: t in q ==> Sane(t, now)
    ensures forall t :: t in Cycled(CONFIGURED, q, now) ==> Fair(t) && Sane(t, now)
  {
    forall t | t in Cycled(CONFIGURED, q, now) ensures Fair(t) && Sane(t, now) {
      CycledHas(q, now, t);
      var i :| 0 <= i < |q| && t == Scored(CONFIGURED, now, EnrichedAll(q)[i]);
      assert Sane(q[i], now);
      EnrichedKeeps(q, i);
      ScoredIsFair(EnrichedAll(q)[i], now);
    }
  }

  lemma StepFair(s: System, e: Event, clock: int)
    requires AllFair(s, clock) && GoodEvent(e, clock)
    ensures AllFair(Step(s, e), Clock(e, clock))
  {
    SaneLater(s.waiting, clock, Clock(e, clock));
    SaneLater(s.sent, clock, Clock(e, clock));
    match e
    case Arrive(ts, now) => AddedFair(s.waiting, ts, now);
    case Remove(refs) =>
      forall t | t in Keep(s.waiting, Requests(refs)) ensures t in s.waiting {
        KeepHas(s.waiting, Requests(refs), t);
      }
    case Send =>
    case Cycle(now) => CycledFair(s.waiting, now);
    case Stuck(i, jobStatus, now) =>
      if i < |s.sent| {
        StuckFair(s, i, jobStatus, now);
      }
  }

  lemma StuckFair(s: System, i: nat, jobStatus: Option<string>, now: int)
    requires AllFair(s, now) && i < |s.sent|
    ensures AllFair(Step(s, Stuck(i, jobStatus, now)), now)
  {
    assert Sane(s.sent[i], now);
    AddedFair(s.waiting, Requeued(s.sent[i], jobStatus), now);
  }

  lemma {:induction false} RunFair(s: System, es: seq<Event>, clock: int)
    requires AllFair(s, clock) && GoodRun(es, clock)
    ensures forall t :: t in Run(s, es).waiting ==> Fair(t)
    decreases |es|
  {
    if es != [] {
      StepFair(s, es[0], clock);
      RunFair(Step(s, es[0]), es[1..], Clock(es[0], clock));
    }
  }

  /** After every run, a prescheduled task is the next one sent only when no other kind of task waits. */
  lemma PrescheduledComesLast(es: seq<Event>, clock: int)
    requires GoodRun(es, clock)
    ensures var q := Run(EMPTY, es).waiting;
            q != [] && q[0].status == PRESCHEDULE ==> forall t :: t in q ==> t.status == PRESCHEDULE
  {
    RunFair(EMPTY, es, clock);
    RunSorted(EMPTY, es);
    var q := Run(EMPTY, es).waiting;
    if q != [] && q[0].status == PRESCHEDULE {
      forall t | t in q ensures t.status == PRESCHEDULE {
        assert Fair(q[0]) && Fair(t) && q[0].score >= t.score;
      }
    }
  }
}
