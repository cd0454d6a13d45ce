/** How often a stuck task is put back before it is given up. */
module TaskRetries {
  import opened Wrappers
  import opened StableSort
  import opened AlgorithmTasks
  import opened TaskQueue
  import opened TaskQueueRuns

  function Max(a: int, b: int): int { if a >= b then a else b }

  /** How often a task may be put back. */
  function Allowance(t: Task): nat { Max(0, MaxAttempts(t)) }

  // ---------------------------------------------------------------- one task

  /** A stuck task whose job goes on crashes, reported with its limit, exactly when its attempts are used up. */
  lemma CrashIff(t: Task, jobStatus: Option<string>)
    ensures StuckUpdate(t, jobStatus) == Some(Update(CRASHED, MaxAttempts(t)))
            <==> !Skipped(jobStatus) && t.attempts >= MaxAttempts(t)
    ensures Requeued(t, jobStatus) == [] <==> Skipped(jobStatus) || t.attempts >= MaxAttempts(t)
  {
  }

  /** A job that is over or has not started. */
  ghost predicate Idle(jobStatus: Option<string>) {
    jobStatus == Some("completed") || jobStatus == Some("failed") || jobStatus == Some("stopped")
    || jobStatus == Some("preschedule")
  }

  /**
   * What becomes of a stuck task: nothing if its job is idle; else it is reported crashed with its limit (3 without
   * one) when one attempt more would pass the limit, and otherwise reported stalled with that attempt and put back,
   * all else as new.
   */
  lemma StuckOutcome(t: Task, jobStatus: Option<string>, limit: int)
    requires limit == if t.retryLimit.Some? then t.retryLimit.value else 3
    ensures Idle(jobStatus) ==> StuckUpdate(t, jobStatus) == None && Requeued(t, jobStatus) == []
    ensures !Idle(jobStatus) && t.attempts + 1 > limit ==>
              StuckUpdate(t, jobStatus) == Some(Update("crashed", limit)) && Requeued(t, jobStatus) == []
    ensures !Idle(jobStatus) && t.attempts + 1 <= limit ==>
              && StuckUpdate(t, jobStatus) == Some(Update("stalled", t.attempts + 1))
              && Requeued(t, jobStatus) == [t.(attempts := t.attempts + 1, initialBatchLength := 1,
                                               batchPlace := NoPlace, latestScores := map[], score := 0.0)]
  {
  }

  /** Used attempts never exceed the allowance. */
  predicate Bounded(t: Task) { 0 <= t.attempts <= Allowance(t) }

  ghost predicate AllBounded(ts: seq<Task>) { forall t :: t in ts ==> Bounded(t) }

  /** Tasks arrive new, or restored with the attempts they have used. */
  ghost predicate BoundedEvent(e: Event) { e.Arrive? ==> AllBounded(e.tasks) }

  ghost predicate BoundedEvents(es: seq<Event>) { forall e :: e in es ==> BoundedEvent(e) }

  lemma AddedBounded(q: seq<Task>, ts: seq<Task>, now: int)
    requires AllBounded(q) && AllBounded(ts)
    ensures AllBounded(Added(CONFIGURED, q, ts, now))
  {
    forall t | t in Added(CONFIGURED, q, ts, now) ensures Bounded(t) {
      AddedHas(q, ts, now, t);
    }
  }

  lemma CycledBounded(q: seq<Task>, now: int)
    requires AllBounded(q)
    ensures AllBounded(Cycled(CONFIGURED, q, now))
  {
    forall t | t in Cycled(CONFIGURED, q, now) ensures Bounded(t) {
      CycledHas(q, now, t);
      var i :| 0 <= i < |q| && t == Scored(CONFIGURED, now, EnrichedAll(q)[i]);
      EnrichedKeeps(q, i);
      assert Bounded(q[i]);
    }
  }

  lemma StepBounded(s: System, e: Event)
    requires AllBounded(s.waiting) && AllBounded(s.sent) && BoundedEvent(e)
    ensures AllBounded(Step(s, e).waiting) && AllBounded(Step(s, e).sent)
  {
    match e
    case Arrive(ts, now) => AddedBounded(s.waiting, ts, now);
    case Remove(refs) =>
      forall t | t in Keep(s.waiting, Requests(refs)) ensures Bounded(t) {
        KeepHas(s.waiting, Requests(refs), t);
      }
    case Send =>
    case Cycle(now) => CycledBounded(s.waiting, now);
    case Stuck(i, jobStatus, now) =>
      if i < |s.sent| {
        assert Bounded(s.sent[i]);
        AddedBounded(s.waiting, Requeued(s.sent[i], jobStatus), now);
      }
  }

  /** Over every run no task waits, or is with the workers, with more attempts than it is allowed. */
  lemma {:induction false} RunBounded(s: System, es: seq<Event>)
    requires AllBounded(s.waiting) && AllBounded(s.sent) && BoundedEvents(es)
    ensures AllBounded(Run(s, es).waiting) && AllBounded(Run(s, es).sent)
    decreases |es|
  {
    if es != [] {
      assert es[0] in es;
      StepBounded(s, es[0]);
      RunBounded(Step(s, es[0]), es[1..]);
    }
  }

  // ---------------------------------------------------------------- one task over a run

  predicate Is(t: Task, id: TaskRef) { t.jobId == id.jobId && t.taskId == id.taskId }

  function Copies(ts: seq<Task>, id: TaskRef): nat {
    if ts == [] then 0 else (if Is(ts[0], id) then 1 else 0) + Copies(ts[1..], id)
  }

  lemma {:induction false} CopiesAppend(a: seq<Task>, b: seq<Task>, id: TaskRef)
    ensures Copies(a + b, id) == Copies(a, id) + Copies(b, id)
  {
    if a == [] {
      assert a + b == b;
    } else {
      CopiesAppend(a[1..], b, id);
      assert (a + b)[1..] == a[1..] + b;
    }
  }

  lemma {:induction false} CopiesHave(ts: seq<Task>, t: Task, id: TaskRef)
    requires t in ts && Is(t, id)
    ensures Copies(ts, id) >= 1
  {
    if ts[0] != t {
      CopiesHave(ts[1..], t, id);
    }
  }

  lemma {:induction false} CopiesInsert(t: Task, ts: seq<Task>, id: TaskRef)
    ensures Copies(Insert(t, ts, ScoreOf), id) == (if Is(t, id) then 1 else 0) + Copies(ts, id)
  {
    if ts == [] || ScoreOf(t) >= ScoreOf(ts[0]) {
      assert ([t] + ts)[1..] == ts;
    } else {
      var rest := Insert(t, ts[1..], ScoreOf);
      CopiesInsert(t, ts[1..], id);
      assert ([ts[0]] + rest)[1..] == rest;
    }
  }

  lemma {:induction false} CopiesSort(ts: seq<Task>, id: TaskRef)
    ensures Copies(SortDesc(ts, ScoreOf), id) == Copies(ts, id)
  {
    if ts != [] {
      CopiesSort(ts[1..], id);
      CopiesInsert(ts[0], SortDesc(ts[1..], ScoreOf), id);
    }
  }

  lemma {:induction false} CopiesSame(a: seq<Task>, b: seq<Task>, id: TaskRef)
    requires |a| == |b| && forall i :: 0 <= i < |a| ==> Is(a[i], id) == Is(b[i], id)
    ensures Copies(a, id) == Copies(b, id)
  {
    if a != [] {
      CopiesSame(a[1..], b[1..], id);
    }
  }

  lemma {:induction false} CopiesKeep(q: seq<Task>, ps: seq<Pattern>, id: TaskRef)
    ensures Copies(Keep(q, ps), id) <= Copies(q, id)
  {
    if q != [] {
      CopiesKeep(q[1..], ps, id);
      var rest := Keep(q[1..], ps);
      if MatchesAny(ps, q[0]) {
        assert Keep(q, ps) == rest;
      } else {
        assert Keep(q, ps)[0] == q[0] && Keep(q, ps)[1..] == rest;
      }
    }
  }

  lemma CopiesAdded(q: seq<Task>, ts: seq<Task>, now: int, id: TaskRef)
    ensures Copies(Added(CONFIGURED, q, ts, now), id) <= Copies(q, id) + Copies(ts, id)
  {
    if ts != [] {
      var kept, scored := Keep(q, Duplicates(ts)), ScoredAll(CONFIGURED, now, ts);
      CopiesSort(kept + scored, id);
      CopiesAppend(kept, scored, id);
      CopiesKeep(q, Duplicates(ts), id);
      CopiesSame(scored, ts, id);
    }
  }

  lemma CopiesCycled(q: seq<Task>, now: int, id: TaskRef)
    ensures Copies(Cycled(CONFIGURED, q, now), id) == Copies(q, id)
  {
    var scored := ScoredAll(CONFIGURED, now, EnrichedAll(q));
    CopiesSort(scored, id);
    forall i | 0 <= i < |q| ensures Is(scored[i], id) == Is(q[i], id) {
      EnrichedKeeps(q, i);
    }
    CopiesSame(scored, q, id);
  }

  /** At most one copy of a task is around, and it has used `n` attempts. */
  ghost predicate Used(s: System, id: TaskRef, n: nat) {
    && Copies(s.waiting, id) + Copies(s.sent, id) <= 1
    && (forall t :: t in s.waiting && Is(t, id) ==> t.attempts == n)
    && (forall t :: t in s.sent && Is(t, id) ==> t.attempts == n)
  }

  /** The task is put back by this event. */
  predicate PutsBack(s: System, e: Event, id: TaskRef) {
    e.Stuck? && e.i < |s.sent| && Is(s.sent[e.i], id) && Requeued(s.sent[e.i], e.jobStatus) != []
  }

  function TimesPutBack(s: System, es: seq<Event>, id: TaskRef): nat
    decreases |es|
  {
    if es == [] then 0
    else (if PutsBack(s, es[0], id) then 1 else 0) + TimesPutBack(Step(s, es[0]), es[1..], id)
  }

  predicate Brings(e: Event, id: TaskRef) { e.Arrive? && Copies(e.tasks, id) > 0 }

  lemma UsedAdded(q: seq<Task>, ts: seq<Task>, now: int, id: TaskRef, n: nat)
    requires forall t :: t in q && Is(t, id) ==> t.attempts == n
    requires forall t :: t in ts && Is(t, id) ==> t.attempts == n
    ensures forall t :: t in Added(CONFIGURED, q, ts, now) && Is(t, id) ==> t.attempts == n
  {
    forall t | t in Added(CONFIGURED, q, ts, now) && Is(t, id) ensures t.attempts == n {
      AddedHas(q, ts, now, t);
    }
  }

  lemma UsedCycled(q: seq<Task>, now: int, id: TaskRef, n: nat)
    requires forall t :: t in q && Is(t, id) ==> t.attempts == n
    ensures forall t :: t in Cycled(CONFIGURED, q, now) && Is(t, id) ==> t.attempts == n
  {
    forall t | t in Cycled(CONFIGURED, q, now) && Is(t, id) ensures t.attempts == n {
      CycledHas(q, now, t);
      var i :| 0 <= i < |q| && t == Scored(CONFIGURED, now, EnrichedAll(q)[i]);
      EnrichedKeeps(q, i);
      assert q[i] in q;
    }
  }

  lemma NoCopies(ts: seq<Task>, id: TaskRef)
    requires Copies(ts, id) == 0
    ensures forall t :: t in ts ==> !Is(t, id)
  {
    forall t | t in ts ensures !Is(t, id) {
      if Is(t, id) {
        CopiesHave(ts, t, id);
      }
    }
  }

  lemma CopiesWithout(ts: seq<Task>, i: nat, id: TaskRef)
    requires i < |ts|
    ensures Copies(ts[..i] + ts[i + 1..], id) == Copies(ts, id) - if Is(ts[i], id) then 1 else 0
  {
    var a, b := ts[..i], ts[i + 1..];
    assert ts == a + ([ts[i]] + b);
    CopiesAppend(a, [ts[i]] + b, id);
    CopiesAppend(a, b, id);
    assert ([ts[i]] + b)[1..] == b;
  }

  lemma CopiesRequeued(t: Task, jobStatus: Option<string>, id: TaskRef)
    ensures Copies(Requeued(t, jobStatus), id) <= if Is(t, id) then 1 else 0
  {
    assert [Adapted(t)][1..] == [];
  }

  lemma CopiesStuck(s: System, i: nat, jobStatus: Option<string>, now: int, id: TaskRef)
    requires i < |s.sent|
    ensures var u := Step(s, Stuck(i, jobStatus, now));
            Copies(u.waiting, id) + Copies(u.sent, id) <= Copies(s.waiting, id) + Copies(s.sent, id)
  {
    CopiesWithout(s.sent, i, id);
    CopiesRequeued(s.sent[i], jobStatus, id);
    CopiesAdded(s.waiting, Requeued(s.sent[i], jobStatus), now, id);
  }

  lemma UsedStuck(s: System, i: nat, jobStatus: Option<string>, now: int, id: TaskRef, n: nat)
    requires Used(s, id, n) && i < |s.sent|
    ensures Used(Step(s, Stuck(i, jobStatus, now)), id, n + if PutsBack(s, Stuck(i, jobStatus, now), id) then 1 else 0)
  {
    var t, left, back := s.sent[i], s.sent[..i] + s.sent[i + 1..], Requeued(s.sent[i], jobStatus);
    CopiesStuck(s, i, jobStatus, now, id);
    if Is(t, id) {
      CopiesHave(s.sent, t, id);
      CopiesWithout(s.sent, i, id);
      NoCopies(s.waiting, id);
      NoCopies(left, id);
      UsedAdded(s.waiting, back, now, id, n + if back != [] then 1 else 0);
    } else {
      UsedAdded(s.waiting, back, now, id, n);
    }
  }

  lemma UsedStep(s: System, e: Event, id: TaskRef, n: nat)
    requires Used(s, id, n) && !Brings(e, id)
    ensures Used(Step(s, e), id, n + if PutsBack(s, e, id) then 1 else 0)
  {
    match e
    case Arrive(ts, now) =>
      NoCopies(ts, id);
      CopiesAdded(s.waiting, ts, now, id);
      UsedAdded(s.waiting, ts, now, id, n);
    case Remove(refs) =>
      CopiesKeep(s.waiting, Requests(refs), id);
      forall t | t in Keep(s.waiting, Requests(refs)) ensures t in s.waiting {
        KeepHas(s.waiting, Requests(refs), t);
      }
    case Send =>
      if s.waiting != [] {
        CopiesAppend(s.sent, [s.waiting[0]], id);
        assert [s.waiting[0]][1..] == [];
      }
    case Cycle(now) =>
      CopiesCycled(s.waiting, now, id);
      UsedCycled(s.waiting, now, id, n);
    case Stuck(i, jobStatus, now) =>
      if i < |s.sent| {
        UsedStuck(s, i, jobStatus, now, id, n);
      }
  }

  /** Over every run, the attempts of a task are the times it was put back. */
  lemma {:induction false} UsedRun(s: System, es: seq<Event>, id: TaskRef, n: nat)
    requires Used(s, id, n) && forall e :: e in es ==> !Brings(e, id)
    ensures Used(Run(s, es), id, n + TimesPutBack(s, es, id))
    decreases |es|
  {
    if es != [] {
      assert es[0] in es;
      UsedStep(s, es[0], id, n);
      UsedRun(Step(s, es[0]), es[1..], id, n + if PutsBack(s, es[0], id) then 1 else 0);
    }
  }

  /**
   * A new task arrives once, among others, and anything may happen after that. When it is then reported stuck and
   * its job goes on, it crashes exactly when it was put back as often as it is allowed.
   */
  lemma CrashesAfterAllowance(arrival: Event, es: seq<Event>, stuck: Event, id: TaskRef)
    requires arrival.Arrive? && Copies(arrival.tasks, id) == 1 && BoundedEvent(arrival) && BoundedEvents(es)
    requires (forall t :: t in arrival.tasks && Is(t, id) ==> t.attempts == 0) && forall e :: e in es ==> !Brings(e, id)
    requires stuck.Stuck? && !Skipped(stuck.jobStatus)
    requires var s := Run(Step(EMPTY, arrival), es); stuck.i < |s.sent| && Is(s.sent[stuck.i], id)
    ensures var t := Run(Step(EMPTY, arrival), es).sent[stuck.i];
            var times := TimesPutBack(Step(EMPTY, arrival), es, id);
            && times <= Allowance(t)
            && (StuckUpdate(t, stuck.jobStatus) == Some(Update(CRASHED, MaxAttempts(t))) <==> times == Allowance(t))
  {
    var s0 := Step(EMPTY, arrival);
    StepBounded(EMPTY, arrival);
    RunBounded(s0, es);
    CopiesAdded([], arrival.tasks, arrival.now, id);
    UsedAdded([], arrival.tasks, arrival.now, id, 0);
    UsedRun(s0, es, id, 0);
    var t := Run(s0, es).sent[stuck.i];
    assert Bounded(t);
    CrashIff(t, stuck.jobStatus);
  }
}
