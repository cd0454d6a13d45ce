/** What one interval may promote, and when an event raises a tracked count. */
module DispatchPromotion {
  import opened Wrappers
  import opened Sequences
  import opened DriverJobs
  import opened DriverQueue
  import opened DispatchModel
  import opened DispatchConservation
  import opened DispatchAddressing
  import opened DispatchConcurrency

  // ---------------------------------------------------------------- one interval

  ghost predicate DistinctNames(ps: seq<StoredPipeline>) {
    forall i, j :: 0 <= i < j < |ps| ==> ps[i].name != ps[j].name
  }

  /** Held-back jobs, no two of the same pipeline. */
  ghost predicate OnePerPipeline(q: seq<Job>) {
    && (forall j :: j in q ==> j.maxExceeded)
    && (forall i, j :: 0 <= i < j < |q| ==> q[i].pipelineName != q[j].pipelineName)
  }

  ghost predicate FromThese(q: seq<Job>, ps: seq<StoredPipeline>) {
    forall j :: j in q ==> exists p :: p in ps && p.name == j.pipelineName
  }

  /** One promotion hands out at most one job, a held-back one of its own pipeline. */
  lemma PromoteHandsOutOne(s: State, p: StoredPipeline, snapshot: seq<Job>, w: Which) returns (extra: seq<Job>)
    requires FirstHeldOf(snapshot, p.name).Some? && Addressable(s)
    ensures Promote(s, p, snapshot, w).dispatched == s.dispatched + extra
    ensures |extra| <= 1 && forall j :: j in extra ==> j.maxExceeded && j.pipelineName == p.name
    ensures Required(s.active, p.name) <= 0 ==> extra == []
    ensures Addressable(Promote(s, p, snapshot, w))
  {
    var experiment := FirstHeldOf(snapshot, p.name).value.experimentName;
    var t := Promote(s, p, snapshot, w);
    PromoteKeepsAddressable(s, p, snapshot, w);
    var i := FindHeld(s.Q(w), experiment, p.name);
    extra := [];
    if Required(s.active, p.name) > 0 && i < |s.Q(w)| && CheckRunningJobs(s, p.name) && s.consumerActive {
      FindsTheMarked(s, w, i);
      extra := [s.Q(w)[i].(updateRunning := 0)];
    }
  }

  lemma {:induction false} PromoteEachHandsOut(
      s: State, pipelines: seq<StoredPipeline>, snapshot: seq<Job>, w: Which) returns (extra: seq<Job>)
    requires forall p :: p in pipelines ==> FirstHeldOf(snapshot, p.name).Some?
    requires Addressable(s) && DistinctNames(pipelines)
    ensures PromoteEach(s, pipelines, snapshot, w).dispatched == s.dispatched + extra
    ensures OnePerPipeline(extra) && FromThese(extra, pipelines)
    ensures Tried(s, pipelines, snapshot, w) == 0 ==> extra == []
    decreases |pipelines|
  {
    if pipelines == [] {
      extra := [];
    } else {
      var first := PromoteHandsOutOne(s, pipelines[0], snapshot, w);
      var t := Promote(s, pipelines[0], snapshot, w);
      var rest := PromoteEachHandsOut(t, pipelines[1..], snapshot, w);
      extra := first + rest;
      Associative(s.dispatched, first, rest);
      CombineHandedOut(first, rest, pipelines);
    }
  }

  lemma CombineHandedOut(first: seq<Job>, rest: seq<Job>, pipelines: seq<StoredPipeline>)
    requires pipelines != [] && DistinctNames(pipelines)
    requires |first| <= 1 && forall j :: j in first ==> j.maxExceeded && j.pipelineName == pipelines[0].name
    requires OnePerPipeline(rest) && FromThese(rest, pipelines[1..])
    ensures OnePerPipeline(first + rest) && FromThese(first + rest, pipelines)
  {
    forall j | j in rest
      ensures j.pipelineName != pipelines[0].name && exists p :: p in pipelines && p.name == j.pipelineName
    {
      var p :| p in pipelines[1..] && p.name == j.pipelineName;
      assert p in pipelines;
    }
    assert pipelines[0] in pipelines;
    if |first| == 1 {
      assert first[0] in first;
    }
  }

  lemma {:induction false} RelevantDistinct(stored: seq<StoredPipeline>, snapshot: seq<Job>)
    requires DistinctNames(stored)
    ensures DistinctNames(Relevant(stored, snapshot))
  {
    if stored != [] {
      RelevantDistinct(stored[1..], snapshot);
      forall p | p in Relevant(stored[1..], snapshot) ensures p.name != stored[0].name {
        assert p in stored[1..];
      }
    }
  }

  lemma IntervalHandsOut(
      s: State, w: Which, snapshot: seq<Job>, redis: map<string, nat>, stored: seq<StoredPipeline>)
      returns (extra: seq<Job>)
    requires Addressable(s) && DistinctNames(stored)
    ensures Interval(s, w, snapshot, redis, stored).dispatched == s.dispatched + extra
    ensures OnePerPipeline(extra)
    ensures IntervalTried(s, w, snapshot, redis, stored) == 0 ==> extra == []
  {
    extra := [];
    if exists j :: j in snapshot && j.maxExceeded {
      var pipelines := Relevant(stored, snapshot);
      RelevantDistinct(stored, snapshot);
      var t := s.(active := Refresh(s.active, pipelines, redis));
      assert NoMoreWait(s, t);
      AddressableKept(s, t);
      extra := PromoteEachHandsOut(t, pipelines, snapshot, w);
    }
  }

  /** What the step from `s` to `t` handed to the producer. */
  ghost function HandedOut(s: State, t: State): seq<Job> {
    if |s.dispatched| <= |t.dispatched| then t.dispatched[|s.dispatched|..] else []
  }

  /**
   * One interval promotes at most one job of each pipeline over both queues. Other events may come
   * between the two queues, so the second part starts from any state `u`.
   */
  lemma OneTickOnePerPipeline(
      s: State, snapshotP: seq<Job>, redisP: map<string, nat>, storedP: seq<StoredPipeline>,
      u: State, snapshotM: seq<Job>, redisM: map<string, nat>, storedM: seq<StoredPipeline>)
    requires Addressable(s) && DistinctNames(storedP) && Addressable(u) && DistinctNames(storedM)
    ensures var t := Interval(s, PreferredQ, snapshotP, redisP, storedP);
            var goesOn := GoesOn(t, IntervalTried(s, PreferredQ, snapshotP, redisP, storedP));
            OnePerPipeline(HandedOut(s, t) +
                           if goesOn then HandedOut(u, Interval(u, MainQ, snapshotM, redisM, storedM)) else [])
  {
    var first := IntervalHandsOut(s, PreferredQ, snapshotP, redisP, storedP);
    var second := IntervalHandsOut(u, MainQ, snapshotM, redisM, storedM);
    assert HandedOut(s, Interval(s, PreferredQ, snapshotP, redisP, storedP)) == first;
    assert HandedOut(u, Interval(u, MainQ, snapshotM, redisM, storedM)) == second;
    assert first + [] == first && [] + second == second;
  }

  // ---------------------------------------------------------------- events and marks

  /**
   * An event raises a pipeline's count if and only if the job it lets run still carries a mark, which
   * only an interval that found the consumer inactive leaves behind.
   */
  lemma EventRaisesIffMarked(s: State, experiment: string, name: string, w: Which)
    requires Addressable(s) && name in s.active && EntryOk(s.active[name])
    ensures var t := CheckMaxExceededIn(s, experiment, name, false, w).0;
            var i := FindHeld(s.Q(w), experiment, name);
            name in t.active && t.active[name].count.Num?
            && (t.active[name].count.n > s.active[name].count.n <==>
                i < |s.Q(w)| && CheckRunningJobs(s, name) && s.consumerActive && s.Q(w)[i].updateRunning > 0)
  {
    var i := FindHeld(s.Q(w), experiment, name);
    if i < |s.Q(w)| && CheckRunningJobs(s, name) && s.consumerActive {
      FindsIt(s, w, i);
    }
  }

  // ---------------------------------------------------------------- the bound without an active consumer

  /** One pipeline that holds jobs back, with a limit of 2. */
  function LimitTwo(name: string): seq<StoredPipeline> { [StoredPipeline(name, true, 2)] }

  lemma RunTo(hs: seq<Heuristic>, events: seq<Event>, e: Event, s: State, t: State, base: Base, next: Base)
    requires GoodRun(EMPTY, events) && WellFormed(e)
    requires e.Arrival? ==> forall id :: ArrivedIn(events, IdIs(id)) == 0
    requires Run(EMPTY, hs, events) == s && Step(s, hs, e) == t
    requires LastRefreshed(events) == base && RefreshedBy(base, e) == next
    ensures Run(EMPTY, hs, events + [e]) == t && LastRefreshed(events + [e]) == next
    ensures GoodRun(EMPTY, events + [e])
  {
    assert (events + [e])[..|events|] == events;
    forall id ensures Waits(EMPTY, IdIs(id)) + ArrivedIn(events, IdIs(id)) + Arrives(e, IdIs(id)) <= 1 {
      assert Waits(EMPTY, IdIs(id)) + ArrivedIn(events, IdIs(id)) <= 1;
    }
    GoodThen(EMPTY, events, e);
  }

  function Tracked(name: string, queued: seq<Job>, awake: bool, count: int): State {
    State([], queued, [], [], awake, map[name := Active(Num(count), Some(2))])
  }

  /** A held-back job arrives while the consumer waits. */
  lemma StickyArrival(hs: seq<Heuristic>, id: string, h: Pipeline, job: Job) returns (e: Event)
    requires h.maxExceeded && job == Rescore(Weighted(hs), 1, PipelineToQueueAdapter(id, h, 1))
    ensures Step(EMPTY.(consumerActive := false), hs, e) == State([], [job], [], [], false, map[])
    ensures RefreshedBy(map[], e) == map[] && e.Arrival? && e.jobId == id
  {
    var raw := PipelineToQueueAdapter(id, h, 1);
    e := Arrival(id, h, 1);
    assert [] + [raw] == [raw];
    assert RescoreAll(Weighted(hs), 1, [raw]) == [job];
    assert SortedByScore([job]) == [job];
  }

  lemma StickyWaiting(hs: seq<Heuristic>) returns (e: Event)
    ensures Step(EMPTY, hs, e) == EMPTY.(consumerActive := false) && RefreshedBy(map[], e) == map[]
    ensures e.ConsumerWaiting?
  {
    e := ConsumerWaiting;
  }

  lemma StickyRelevant(job: Job, active: Tracking, n: nat)
    requires job.maxExceeded
    ensures var name := job.pipelineName;
            && Relevant(LimitTwo(name), [job]) == LimitTwo(name) && FirstHeldOf([job], name) == Some(job)
            && Refresh(active, LimitTwo(name), map[name := n]) == active[name := Active(Num(n), Some(2))]
  {
    assert LimitTwo(job.pipelineName)[1..] == [];
  }

  lemma NoneWaiting(job: Job, name: string)
    requires job.maxExceeded
    ensures Waiting([job], name) == 0
  {
    assert [job][1..] == [];
  }

  lemma PromoteSingle(s: State, p: StoredPipeline, snapshot: seq<Job>)
    requires FirstHeldOf(snapshot, p.name).Some?
    ensures PromoteEach(s, [p], snapshot, MainQ) == Promote(s, p, snapshot, MainQ)
  {
    assert [p][1..] == [];
    assert PromoteEach(Promote(s, p, snapshot, MainQ), [], snapshot, MainQ) == Promote(s, p, snapshot, MainQ);
  }

  lemma IntervalSingle(hs: seq<Heuristic>, s: State, job: Job, n: nat, base: Base) returns (e: Event)
    requires job.maxExceeded
    ensures var name := job.pipelineName;
            var t := s.(active := s.active[name := Active(Num(n), Some(2))]);
            && FirstHeldOf([job], name).Some?
            && Step(s, hs, e) == Promote(t, StoredPipeline(name, true, 2), [job], MainQ)
            && RefreshedBy(base, e) == base[name := n] && e.IntervalOn?
  {
    var name := job.pipelineName;
    e := IntervalOn(MainQ, [job], map[name := n], LimitTwo(name));
    StickyRelevant(job, s.active, n);
    PromoteSingle(s.(active := s.active[name := Active(Num(n), Some(2))]), StoredPipeline(name, true, 2), [job]);
    assert job in [job] && LimitTwo(name)[1..] == [];
    assert RefreshBase(base[name := n], [], map[name := n]) == base[name := n];
  }

  /** The interval marks the job it cannot dispatch. */
  lemma StickyFirst(hs: seq<Heuristic>, job: Job) returns (e: Event)
    requires job.maxExceeded
    ensures Step(State([], [job], [], [], false, map[]), hs, e)
            == Tracked(job.pipelineName, [job.(updateRunning := 1)], false, 1)
    ensures RefreshedBy(map[], e) == map[job.pipelineName := 1] && e.IntervalOn?
  {
    var name := job.pipelineName;
    e := IntervalSingle(hs, State([], [job], [], [], false, map[]), job, 1, map[]);
    var s := Tracked(name, [job], false, 1);
    assert FindHeld([job], job.experimentName, name) == 0;
    assert Mark(s, MainQ, 0, 1) == Tracked(name, [job.(updateRunning := 1)], false, 1);
    NoneWaiting(job, name);
    assert CheckRunningJobs(s, name);
  }

  lemma StickySecond(hs: seq<Heuristic>, job: Job, marked: Job) returns (e: Event)
    requires job.maxExceeded && marked == job.(updateRunning := 1)
    ensures Step(Tracked(job.pipelineName, [marked], false, 1), hs, e) == Tracked(job.pipelineName, [marked], false, 2)
    ensures RefreshedBy(map[job.pipelineName := 1], e) == map[job.pipelineName := 2] && e.IntervalOn?
  {
    var name := job.pipelineName;
    e := IntervalSingle(hs, Tracked(name, [marked], false, 1), job, 2, map[name := 1]);
    var t := Tracked(name, [marked], false, 2);
    assert Tracked(name, [marked], false, 1).active[name := Active(Num(2), Some(2))] == t.active;
    assert Required(t.active, name) == 0;
  }

  lemma StickyWake(hs: seq<Heuristic>, marked: Job, base: Base) returns (e: Event)
    requires marked.maxExceeded
    ensures Step(Tracked(marked.pipelineName, [marked], false, 2), hs, e)
            == Tracked(marked.pipelineName, [marked], true, 2)
    ensures RefreshedBy(base, e) == base && e.ConsumerActive?
  {
    e := ConsumerActive;
    assert FirstEligible([marked]).None?;
  }

  lemma StickyFinish(hs: seq<Heuristic>, marked: Job, base: Base) returns (e: Event)
    requires marked.maxExceeded && marked.updateRunning == 1 && marked.jobId != ""
    ensures Step(Tracked(marked.pipelineName, [marked], true, 2), hs, e).active
            == map[marked.pipelineName := Active(Num(3), Some(2))]
    ensures RefreshedBy(base, e) == base && e.Finished?
  {
    var experiment, name := marked.experimentName, marked.pipelineName;
    e := Finished(experiment, name);
    var s := Tracked(name, [marked], true, 2);
    assert CheckMaxExceededIn(s, experiment, name, false, PreferredQ) == (s, false);
    assert FindHeld(s.main, experiment, name) == 0;
    NoneWaiting(marked, name);
    assert CheckRunningJobs(s, name);
    assert FindJobByJobId(s, marked.jobId) == Some((marked, MainQ));
    assert DequeueJob(s, marked.jobId) == CreateJob(s, marked, MainQ);
  }

  lemma StickyAsleep(hs: seq<Heuristic>) returns (events: seq<Event>)
    ensures Run(EMPTY, hs, events) == EMPTY.(consumerActive := false) && LastRefreshed(events) == map[]
    ensures GoodRun(EMPTY, events) && forall id :: ArrivedIn(events, IdIs(id)) == 0
  {
    var e := StickyWaiting(hs);
    events := [] + [e];
    assert events[..0] == [];
    RunTo(hs, [], e, EMPTY, EMPTY.(consumerActive := false), map[], map[]);
  }

  lemma StickyQueued(hs: seq<Heuristic>, id: string, h: Pipeline, job: Job) returns (events: seq<Event>)
    requires h.maxExceeded && job == Rescore(Weighted(hs), 1, PipelineToQueueAdapter(id, h, 1))
    requires id != ""
    ensures Run(EMPTY, hs, events) == State([], [job], [], [], false, map[]) && LastRefreshed(events) == map[]
    ensures GoodRun(EMPTY, events)
  {
    var start := StickyAsleep(hs);
    var e := StickyArrival(hs, id, h, job);
    events := start + [e];
    RunTo(hs, start, e, EMPTY.(consumerActive := false), State([], [job], [], [], false, map[]), map[], map[]);
  }

  lemma StickyMarked(hs: seq<Heuristic>, job: Job, start: seq<Event>) returns (events: seq<Event>)
    requires job.maxExceeded
    requires Run(EMPTY, hs, start) == State([], [job], [], [], false, map[]) && LastRefreshed(start) == map[]
    requires GoodRun(EMPTY, start)
    ensures GoodRun(EMPTY, events)
    ensures Run(EMPTY, hs, events) == Tracked(job.pipelineName, [job.(updateRunning := 1)], false, 2)
    ensures LastRefreshed(events) == map[job.pipelineName := 2]
  {
    var name, marked := job.pipelineName, job.(updateRunning := 1);
    var e3 := StickyFirst(hs, job);
    var one := Tracked(name, [marked], false, 1);
    RunTo(hs, start, e3, State([], [job], [], [], false, map[]), one, map[], map[name := 1]);
    var e4 := StickySecond(hs, job, marked);
    events := start + [e3] + [e4];
    RunTo(hs, start + [e3], e4, one, Tracked(name, [marked], false, 2), map[name := 1], map[name := 2]);
  }

  lemma StickyOver(hs: seq<Heuristic>, marked: Job, start: seq<Event>, base: Base) returns (events: seq<Event>)
    requires marked.maxExceeded && marked.updateRunning == 1 && marked.jobId != ""
    requires Run(EMPTY, hs, start) == Tracked(marked.pipelineName, [marked], false, 2)
    requires LastRefreshed(start) == base && GoodRun(EMPTY, start)
    ensures GoodRun(EMPTY, events)
    ensures Run(EMPTY, hs, events).active == map[marked.pipelineName := Active(Num(3), Some(2))]
    ensures LastRefreshed(events) == base
  {
    var name := marked.pipelineName;
    var awake := Tracked(name, [marked], true, 2);
    var e5 := StickyWake(hs, marked, base);
    RunTo(hs, start, e5, Tracked(name, [marked], false, 2), awake, base, base);
    var e6 := StickyFinish(hs, marked, base);
    events := start + [e5] + [e6];
    RunTo(hs, start + [e5], e6, awake, Step(awake, hs, e6), base, base);
  }

  /**
   * Without an active consumer the bound fails: a job marked while the consumer waits is counted when
   * an event dispatches it later. With a limit of 2 and a last refreshed count of 2 the count is 3.
   */
  lemma BoundFailsWhenConsumerInactive(hs: seq<Heuristic>, id: string, h: Pipeline)
    requires h.maxExceeded && id != ""
    ensures exists events :: GoodRun(EMPTY, events)
                          && Run(EMPTY, hs, events).active == map[h.name := Active(Num(3), Some(2))]
                          && LastRefreshed(events) == map[h.name := 2]
  {
    var job := Rescore(Weighted(hs), 1, PipelineToQueueAdapter(id, h, 1));
    assert Core(job).jobId == id && Core(job).maxExceeded && Core(job).pipelineName == h.name;
    var queued := StickyQueued(hs, id, h, job);
    var marked := StickyMarked(hs, job, queued);
    var over := StickyOver(hs, job.(updateRunning := 1), marked, map[h.name := 2]);
  }
}
