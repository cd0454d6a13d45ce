/**
 * The concurrency handler's bookkeeping over whole runs: when the tracked counts stay natural numbers, and when
 * they stay within the larger of the last refreshed count and the limit. A run starts with empty queues or with
 * queues loaded after a restart, whose jobs may carry marks.
 */
module DispatchConcurrency {
  import opened Wrappers
  import opened DriverJobs
  import opened DriverQueue
  import opened DispatchModel
  import opened DispatchConservation
  import opened DispatchAddressing

  /** The counts last read from Redis, by pipeline. */
  type Base = map<string, int>

  // ---------------------------------------------------------------- marks

  /** Which marks the queued jobs may carry: none, those of tracked pipelines, or any the handler leaves. */
  datatype Marks = NoMarks | TrackedMarks | AnyMarks

  /** A queued job is unmarked, or held back and marked 1. */
  ghost predicate JobOk(j: Job, tracked: set<string>, m: Marks) {
    j.updateRunning == 0
    || (m != NoMarks && j.updateRunning == 1 && j.maxExceeded && (m == TrackedMarks ==> j.pipelineName in tracked))
  }

  ghost predicate QueueOk(q: seq<Job>, tracked: set<string>, m: Marks) {
    forall j :: j in q ==> JobOk(j, tracked, m)
  }

  ghost predicate MarksOk(s: State, m: Marks) {
    QueueOk(s.preferred, s.active.Keys, m) && QueueOk(s.main, s.active.Keys, m)
  }

  lemma {:induction false} RecalculatedOk(sc: Scoring, now: int, q: seq<Job>, tracked: set<string>, m: Marks)
    requires QueueOk(q, tracked, m)
    ensures QueueOk(Recalculated(sc, now, q), tracked, m)
  {
    var scored := RescoreAll(sc, now, q);
    forall r | r in Recalculated(sc, now, q) ensures JobOk(r, tracked, m) {
      assert r in multiset(scored);
      var i :| 0 <= i < |scored| && scored[i] == r;
      assert q[i] in q && Core(r) == Core(q[i]);
      assert r.maxExceeded == Core(r).maxExceeded && r.pipelineName == Core(r).pipelineName;
    }
  }

  lemma CreateJobMarks(s: State, m: Marks, job: Job, w: Which)
    requires MarksOk(s, m)
    ensures MarksOk(CreateJob(s, job, w), m)
    ensures job.updateRunning == 0 ==> CreateJob(s, job, w).active == s.active
  {
  }

  /** An ordinary dispatch hands out an eligible job, which carries no mark: no count changes. */
  lemma DispatchNextMarks(s: State, m: Marks)
    requires MarksOk(s, m)
    ensures MarksOk(DispatchNext(s), m) && DispatchNext(s).active == s.active
  {
    match FirstEligible(s.preferred)
    case Some(j) => CreateJobMarks(s, m, j, PreferredQ);
    case None =>
      match FirstEligible(s.main)
      case Some(j) => CreateJobMarks(s, m, j, MainQ);
      case None =>
  }

  lemma DequeueJobMarks(s: State, m: Marks, id: string)
    requires MarksOk(s, m)
    ensures MarksOk(DequeueJob(s, id), m)
  {
    if s.consumerActive {
      match if id == "" then None else FindJobByJobId(s, id)
      case Some(found) => CreateJobMarks(s, m, found.0, found.1);
      case None => DispatchNextMarks(s, m);
    }
  }

  lemma ArriveMarks(s: State, m: Marks, hs: seq<Heuristic>, job: Job, now: int)
    requires MarksOk(s, m) && job.updateRunning == 0
    ensures MarksOk(Arrive(s, hs, job, now), m) && Arrive(s, hs, job, now).active == s.active
  {
    RecalculatedOk(Weighted(hs), now, s.main + [job], s.active.Keys, m);
    DispatchNextMarks(s.(main := Recalculated(Weighted(hs), now, s.main + [job])), m);
  }

  lemma {:induction false} UnpreferEachMarks(s: State, m: Marks, ids: seq<string>)
    requires MarksOk(s, m)
    ensures MarksOk(UnpreferEach(s, ids), m) && UnpreferEach(s, ids).active == s.active
    decreases |ids|
  {
    if ids != [] {
      match FindJob(s.preferred, ids[0])
      case None => UnpreferEachMarks(s, m, ids[1..]);
      case Some(job) =>
        var t := s.(preferred := Without(s.preferred, ids[0]), main := s.main + [job]);
        assert MarksOk(t, m);
        DispatchNextMarks(t, m);
        UnpreferEachMarks(OnInsert(t), m, ids[1..]);
    }
  }

  lemma UnpreferMarks(s: State, m: Marks, hs: seq<Heuristic>, ids: seq<string>, now: int)
    requires MarksOk(s, m)
    ensures MarksOk(Unprefer(s, hs, ids, now), m) && Unprefer(s, hs, ids, now).active == s.active
  {
    UnpreferEachMarks(s, m, ids);
    var t := UnpreferEach(s, ids);
    RecalculatedOk(Weighted(hs), now, t.main, t.active.Keys, m);
  }

  lemma {:induction false} PreferEachMarks(s: State, m: Marks, ids: seq<string>, i: nat)
    requires MarksOk(s, m) && i <= |s.preferred|
    ensures MarksOk(PreferEach(s, ids, i), m) && PreferEach(s, ids, i).active == s.active
    decreases |ids|
  {
    if ids != [] {
      var t := PreferOne(s, ids[|ids| - 1], i);
      assert MarksOk(t, m);
      PreferEachMarks(t, m, ids[..|ids| - 1], i);
    }
  }

  lemma CheckQueueMarks(s: State, m: Marks, pending: Which -> int)
    requires MarksOk(s, m)
    ensures MarksOk(CheckQueue(s, pending), m) && CheckQueue(s, pending).active == s.active
  {
    if FirstEligible(s.preferred).Some? {
      CreateJobMarks(s, m, FirstEligible(s.preferred).value, PreferredQ);
    }
    if FirstEligible(s.main).Some? {
      CreateJobMarks(s, m, FirstEligible(s.main).value, MainQ);
    }
  }

  /** An event marks nothing. */
  lemma EventMarks(s: State, m: Marks, experiment: string, name: string, w: Which)
    requires MarksOk(s, m)
    ensures MarksOk(CheckMaxExceededIn(s, experiment, name, false, w).0, m)
  {
    var i := FindHeld(s.Q(w), experiment, name);
    if i < |s.Q(w)| {
      if CheckRunningJobs(s, name) {
        DequeueJobMarks(s, m, s.Q(w)[i].jobId);
      } else {
        assert MarksOk(Mark(s, w, i, 0), m);
      }
    }
  }

  /** The interval marks a held-back job of a tracked pipeline, and with an active consumer dispatches it. */
  lemma PromoteMarks(s: State, m: Marks, p: StoredPipeline, snapshot: seq<Job>, w: Which)
    requires MarksOk(s, m) && FirstHeldOf(snapshot, p.name).Some?
    requires Addressable(s) && (m == NoMarks ==> s.consumerActive)
    ensures MarksOk(Promote(s, p, snapshot, w), m)
  {
    var experiment := FirstHeldOf(snapshot, p.name).value.experimentName;
    var i := FindHeld(s.Q(w), experiment, p.name);
    if Required(s.active, p.name) > 0 && i < |s.Q(w)| {
      if !CheckRunningJobs(s, p.name) {
        assert MarksOk(Mark(s, w, i, 0), m);
      } else if m == NoMarks {
        FindsTheMarked(s, w, i);
        WithoutUnmarked(s, w, i);
      } else {
        assert MarksOk(Mark(s, w, i, 1), m);
        DequeueJobMarks(Mark(s, w, i, 1), m, s.Q(w)[i].jobId);
      }
    }
  }

  lemma WithoutUnmarked(s: State, w: Which, i: nat)
    requires MarksOk(s, NoMarks) && i < |s.Q(w)|
    ensures var q := s.Q(w)[i := s.Q(w)[i].(updateRunning := 1)];
            QueueOk(Without(q, s.Q(w)[i].jobId), s.active.Keys, NoMarks)
  {
  }

  lemma FindsTheMarked(s: State, w: Which, i: nat)
    requires Addressable(s) && i < |s.Q(w)|
    ensures var t := Mark(s, w, i, 1);
            var id := s.Q(w)[i].jobId;
            id != "" && FindJobByJobId(t, id) == Some((t.Q(w)[i], w))
  {
    var t := Mark(s, w, i, 1);
    forall p: Property ensures Waits(t, p) <= Waits(s, p) { MarkWaits(s, w, i, 1, p); }
    AddressableKept(s, t);
    FindsIt(t, w, i);
  }

  // ---------------------------------------------------------------- counts

  function Max(a: int, b: int): int { if a >= b then a else b }

  /** A tracked entry is complete, with a count that is a natural number. */
  ghost predicate EntryOk(a: Active) {
    a.count.Num? && a.count.n >= 0 && a.max.Some?
  }

  /** Every count is natural; if `bounded`, also at most the larger of the last refreshed count and the limit. */
  ghost predicate CountsOk(active: Tracking, base: Base, bounded: bool) {
    forall name :: name in active ==>
      && EntryOk(active[name])
      && (bounded ==> name in base && active[name].count.n <= Max(base[name], active[name].max.value))
  }

  /** The first held-back job an event may let run, the preferred queue first. */
  function FirstHeld(s: State, experiment: string, name: string): (r: Option<Job>)
    ensures r.Some? ==> r.value.maxExceeded && r.value.pipelineName == name
  {
    var i, k := FindHeld(s.preferred, experiment, name), FindHeld(s.main, experiment, name);
    if i < |s.preferred| then Some(s.preferred[i])
    else if k < |s.main| then Some(s.main[k])
    else None
  }

  /**
   * The event dispatches a job that carries a mark, of an untracked pipeline, or, if `bounded`, of one whose
   * count has no room for the mark.
   */
  ghost predicate Breaks(s: State, base: Base, e: Event, bounded: bool) {
    && e.Finished? && s.consumerActive
    && CheckRunningJobs(s, e.name)
    && FirstHeld(s, e.experiment, e.name).Some?
    && var mark := FirstHeld(s, e.experiment, e.name).value.updateRunning;
       && mark != 0
       && (e.name in s.active ==>
             && bounded && s.active[e.name].count.Num? && s.active[e.name].max.Some? && e.name in base
             && s.active[e.name].count.n + mark > Max(base[e.name], s.active[e.name].max.value))
  }

  /** A refusal happens only at a positive count, so taking one off keeps it natural and makes room for one. */
  lemma RefusalCounts(s: State, base: Base, bounded: bool, name: string, job: Job)
    requires CountsOk(s.active, base, bounded) && job.pipelineName == name && job.updateRunning == -1
    requires !CheckRunningJobs(s, name)
    ensures var a := UpdateActiveJobs(s.active, job);
            && CountsOk(a, base, bounded) && name in a
            && (bounded ==> a[name].count.n + 1 <= Max(base[name], a[name].max.value))
  {
  }

  /** Handing out a job that is counted keeps all counts right exactly when the pipeline is tracked with room. */
  lemma SettleCounts(active: Tracking, base: Base, bounded: bool, job: Job)
    requires CountsOk(active, base, bounded) && job.updateRunning == 1
    ensures CountsOk(UpdateActiveJobs(active, job), base, bounded) <==>
              && job.pipelineName in active
              && (bounded ==>
                    active[job.pipelineName].count.n + 1
                    <= Max(base[job.pipelineName], active[job.pipelineName].max.value))
  {
    var a := UpdateActiveJobs(active, job);
    assert job.pipelineName in a;
    assert forall name :: name in active && name != job.pipelineName ==> name in a && a[name] == active[name];
  }

  /** What an event does to the counts when it lets the job at `i` run. */
  lemma EventSettles(s: State, experiment: string, name: string, w: Which)
    requires Addressable(s) && FindHeld(s.Q(w), experiment, name) < |s.Q(w)| && CheckRunningJobs(s, name)
    ensures var job := s.Q(w)[FindHeld(s.Q(w), experiment, name)];
            CheckMaxExceededIn(s, experiment, name, false, w).0.active ==
            if s.consumerActive then UpdateActiveJobs(s.active, job) else s.active
  {
    FindsIt(s, w, FindHeld(s.Q(w), experiment, name));
  }

  /**
   * From counts that are right, the check of one queue breaks them if and only if it lets a job run whose mark
   * no longer fits: a job of an untracked pipeline, or one that passes the bound.
   */
  lemma EventBreaksIff(s: State, base: Base, bounded: bool, experiment: string, name: string, w: Which)
    requires Addressable(s) && MarksOk(s, AnyMarks) && CountsOk(s.active, base, bounded)
    ensures var i := FindHeld(s.Q(w), experiment, name);
            CountsOk(CheckMaxExceededIn(s, experiment, name, false, w).0.active, base, bounded) <==>
            !(i < |s.Q(w)| && CheckRunningJobs(s, name) && s.consumerActive && s.Q(w)[i].updateRunning != 0
              && (name in s.active ==>
                    bounded && s.active[name].count.n + s.Q(w)[i].updateRunning
                               > Max(base[name], s.active[name].max.value)))
  {
    var i := FindHeld(s.Q(w), experiment, name);
    if i < |s.Q(w)| {
      var job := s.Q(w)[i];
      assert job in s.Q(w);
      if CheckRunningJobs(s, name) {
        EventSettles(s, experiment, name, w);
        if job.updateRunning != 0 {
          SettleCounts(s.active, base, bounded, job);
        }
      } else {
        RefusalCounts(s, base, bounded, name, job.(updateRunning := -1));
      }
    }
  }

  lemma EventKeepsAddressable(s: State, experiment: string, name: string, w: Which)
    requires Addressable(s)
    ensures Addressable(CheckMaxExceededIn(s, experiment, name, false, w).0)
  {
    var t := CheckMaxExceededIn(s, experiment, name, false, w).0;
    forall p: Property ensures Waits(t, p) <= Waits(s, p) {
      CheckMaxExceededInWaits(s, experiment, name, false, w, p);
    }
    AddressableKept(s, t);
  }

  /** A finished job breaks the counts exactly when the first held-back job carries a mark that does not fit. */
  lemma FinishedBreaksIff(s: State, base: Base, bounded: bool, experiment: string, name: string)
    requires Addressable(s) && MarksOk(s, AnyMarks) && CountsOk(s.active, base, bounded)
    ensures CountsOk(CheckMaxExceeded(s, experiment, name).active, base, bounded)
            <==> !Breaks(s, base, Finished(experiment, name), bounded)
  {
    var (t, done) := CheckMaxExceededIn(s, experiment, name, false, PreferredQ);
    var i := FindHeld(s.preferred, experiment, name);
    EventBreaksIff(s, base, bounded, experiment, name, PreferredQ);
    if i == |s.preferred| {
      EventBreaksIff(s, base, bounded, experiment, name, MainQ);
    } else if !CheckRunningJobs(s, name) {
      RefusalCounts(s, base, bounded, name, s.preferred[i].(updateRunning := -1));
      EventKeepsAddressable(s, experiment, name, PreferredQ);
      EventMarks(s, AnyMarks, experiment, name, PreferredQ);
      AfterRefusal(s, t, base, bounded, experiment, name);
    }
  }

  /** After a refusal there is room for one more, so the main queue's check breaks nothing. */
  lemma AfterRefusal(s: State, t: State, base: Base, bounded: bool, experiment: string, name: string)
    requires Addressable(t) && MarksOk(t, AnyMarks) && CountsOk(t.active, base, bounded) && name in t.active
    requires bounded ==> t.active[name].count.n + 1 <= Max(base[name], t.active[name].max.value)
    ensures CountsOk(CheckMaxExceededIn(t, experiment, name, false, MainQ).0.active, base, bounded)
  {
    EventBreaksIff(t, base, bounded, experiment, name, MainQ);
    var k := FindHeld(t.main, experiment, name);
    assert k < |t.main| ==> t.main[k] in t.main;
  }

  /** The interval promotes below the limit only, so one more keeps the bound. */
  lemma PromoteCounts(s: State, base: Base, bounded: bool, p: StoredPipeline, snapshot: seq<Job>, w: Which)
    requires Addressable(s) && CountsOk(s.active, base, bounded) && FirstHeldOf(snapshot, p.name).Some?
    ensures CountsOk(Promote(s, p, snapshot, w).active, base, bounded)
  {
    var experiment := FirstHeldOf(snapshot, p.name).value.experimentName;
    var i := FindHeld(s.Q(w), experiment, p.name);
    if Required(s.active, p.name) > 0 && i < |s.Q(w)| {
      var job := s.Q(w)[i];
      if CheckRunningJobs(s, p.name) {
        FindsTheMarked(s, w, i);
        SettleCounts(s.active, base, bounded, job.(updateRunning := 1));
      } else {
        RefusalCounts(s, base, bounded, p.name, job.(updateRunning := -1));
      }
    }
  }

  lemma PromoteKeepsConsumer(s: State, p: StoredPipeline, snapshot: seq<Job>, w: Which)
    requires FirstHeldOf(snapshot, p.name).Some?
    ensures Promote(s, p, snapshot, w).consumerActive == s.consumerActive
  {
  }

  lemma PromoteKeepsAddressable(s: State, p: StoredPipeline, snapshot: seq<Job>, w: Which)
    requires FirstHeldOf(snapshot, p.name).Some? && Addressable(s)
    ensures Addressable(Promote(s, p, snapshot, w))
  {
    var t := Promote(s, p, snapshot, w);
    forall r: Property ensures Waits(t, r) <= Waits(s, r) {
      CheckMaxExceededInWaits(s, FirstHeldOf(snapshot, p.name).value.experimentName, p.name, true, w, r);
    }
    AddressableKept(s, t);
  }

  lemma {:induction false} PromoteEachOk(
      s: State, base: Base, m: Marks, bounded: bool, pipelines: seq<StoredPipeline>, snapshot: seq<Job>, w: Which)
    requires forall p :: p in pipelines ==> FirstHeldOf(snapshot, p.name).Some?
    requires MarksOk(s, m) && Addressable(s) && (m == NoMarks ==> s.consumerActive)
    ensures MarksOk(PromoteEach(s, pipelines, snapshot, w), m)
    ensures CountsOk(s.active, base, bounded) ==>
              CountsOk(PromoteEach(s, pipelines, snapshot, w).active, base, bounded)
    decreases |pipelines|
  {
    if pipelines != [] {
      var p := pipelines[0];
      PromoteMarks(s, m, p, snapshot, w);
      PromoteKeepsConsumer(s, p, snapshot, w);
      PromoteKeepsAddressable(s, p, snapshot, w);
      if CountsOk(s.active, base, bounded) {
        PromoteCounts(s, base, bounded, p, snapshot, w);
      }
      PromoteEachOk(Promote(s, p, snapshot, w), base, m, bounded, pipelines[1..], snapshot, w);
    }
  }

  function RefreshBase(base: Base, pipelines: seq<StoredPipeline>, redis: map<string, nat>): Base
    decreases |pipelines|
  {
    if pipelines == [] then base
    else RefreshBase(base[pipelines[0].name := RedisCount(redis, pipelines[0].name)], pipelines[1..], redis)
  }

  lemma {:induction false} RefreshOk(
      active: Tracking, base: Base, bounded: bool, pipelines: seq<StoredPipeline>, redis: map<string, nat>)
    ensures active.Keys <= Refresh(active, pipelines, redis).Keys
    ensures CountsOk(active, base, bounded) ==>
              CountsOk(Refresh(active, pipelines, redis), RefreshBase(base, pipelines, redis), bounded)
    decreases |pipelines|
  {
    if pipelines != [] {
      var p := pipelines[0];
      var next := active[p.name := Active(Num(RedisCount(redis, p.name)), Some(p.amount))];
      RefreshOk(next, base[p.name := RedisCount(redis, p.name)], bounded, pipelines[1..], redis);
    }
  }

  lemma IntervalOk(s: State, base: Base, m: Marks, bounded: bool, hs: seq<Heuristic>, e: Event)
    requires MarksOk(s, m) && e.IntervalOn? && Addressable(s) && (m == NoMarks ==> s.consumerActive)
    ensures MarksOk(Step(s, hs, e), m)
    ensures CountsOk(s.active, base, bounded) ==> CountsOk(Step(s, hs, e).active, RefreshedBy(base, e), bounded)
  {
    if exists j :: j in e.snapshot && j.maxExceeded {
      var pipelines := Relevant(e.stored, e.snapshot);
      RefreshOk(s.active, base, bounded, pipelines, e.redis);
      var t := s.(active := Refresh(s.active, pipelines, e.redis));
      assert NoMoreWait(s, t);
      AddressableKept(s, t);
      PromoteEachOk(t, RefreshedBy(base, e), m, bounded, pipelines, e.snapshot, e.w);
    }
  }

  // ---------------------------------------------------------------- steps

  /** The counts last read from Redis at the end of a run. */
  function LastRefreshed(events: seq<Event>): Base {
    if events == [] then map[]
    else RefreshedBy(LastRefreshed(events[..|events| - 1]), events[|events| - 1])
  }

  function RefreshedBy(base: Base, e: Event): Base {
    if e.IntervalOn? && exists j :: j in e.snapshot && j.maxExceeded
    then RefreshBase(base, Relevant(e.stored, e.snapshot), e.redis)
    else base
  }

  /** The first eligible job of a queue, which is what a check picks, carries no mark. */
  lemma PicksAreUnmarked(s: State, w: Which)
    requires MarksOk(s, AnyMarks) && FirstEligible(s.Q(w)).Some?
    ensures FirstEligible(s.Q(w)).value.updateRunning == 0
  {
  }

  lemma StepMarks(s: State, m: Marks, hs: seq<Heuristic>, e: Event)
    requires MarksOk(s, m) && WellFormed(e)
    requires e.IntervalOn? ==> Addressable(s) && (m == NoMarks ==> s.consumerActive)
    ensures MarksOk(Step(s, hs, e), m)
    ensures !e.Finished? && !e.IntervalOn? ==> Step(s, hs, e).active == s.active
  {
    match e
    case Arrival(id, pipeline, now) => ArriveMarks(s, m, hs, PipelineToQueueAdapter(id, pipeline, now), now);
    case Stopping(id) =>
    case Preferring(ids, place) => PreferEachMarks(s, m, ids, GetIndex(s.preferred, place));
    case Unpreferring(ids, now) => UnpreferMarks(s, m, hs, ids, now);
    case ConsumerWaiting =>
    case ConsumerActive => DispatchNextMarks(s.(consumerActive := true), m);
    case Finished(experiment, name) => FinishedMarks(s, m, experiment, name);
    case IntervalOn(w, snapshot, redis, stored) => IntervalOk(s, map[], m, false, hs, e);
    case Checking(pending) => CheckQueueMarks(s, m, pending);
    case CheckResumed(picked, w) => CreateJobMarks(s, m, picked, w);
  }

  lemma FinishedMarks(s: State, m: Marks, experiment: string, name: string)
    requires MarksOk(s, m)
    ensures MarksOk(CheckMaxExceeded(s, experiment, name), m)
  {
    var (t, done) := CheckMaxExceededIn(s, experiment, name, false, PreferredQ);
    EventMarks(s, m, experiment, name, PreferredQ);
    EventMarks(t, m, experiment, name, MainQ);
  }

  /** Of all steps, only a finished job can break the counts. */
  lemma StepBreaksIff(s: State, base: Base, bounded: bool, hs: seq<Heuristic>, e: Event)
    requires Addressable(s) && MarksOk(s, AnyMarks) && WellFormed(e) && CountsOk(s.active, base, bounded)
    ensures CountsOk(Step(s, hs, e).active, RefreshedBy(base, e), bounded) <==> !Breaks(s, base, e, bounded)
  {
    if e.Finished? {
      FinishedBreaksIff(s, base, bounded, e.experiment, e.name);
    } else if e.IntervalOn? {
      IntervalOk(s, base, AnyMarks, bounded, hs, e);
    } else {
      StepMarks(s, AnyMarks, hs, e);
    }
  }

  // ---------------------------------------------------------------- runs

  /** The consumer is active at every interval of the run. */
  ghost predicate ActiveAtIntervals(start: State, hs: seq<Heuristic>, events: seq<Event>) {
    forall i :: 0 <= i < |events| && events[i].IntervalOn? ==> Run(start, hs, events[..i]).consumerActive
  }

  lemma SamePrefix(events: seq<Event>, n: nat, i: nat)
    requires i < n <= |events|
    ensures events[..n][..i] == events[..i] && events[..n][i] == events[i]
  {
  }

  lemma ActivePrefix(start: State, hs: seq<Heuristic>, events: seq<Event>, n: nat)
    requires ActiveAtIntervals(start, hs, events) && n <= |events|
    ensures ActiveAtIntervals(start, hs, events[..n])
  {
    forall i | 0 <= i < n && events[..n][i].IntervalOn? ensures Run(start, hs, events[..n][..i]).consumerActive {
      SamePrefix(events, n, i);
    }
  }

  lemma {:induction false} RunMarks(start: State, hs: seq<Heuristic>, events: seq<Event>, m: Marks)
    requires GoodRun(start, events) && MarksOk(start, m)
    requires m == NoMarks ==> ActiveAtIntervals(start, hs, events)
    ensures MarksOk(Run(start, hs, events), m)
  {
    if events != [] {
      var n := |events| - 1;
      GoodPrefix(start, events, n);
      if m == NoMarks {
        ActivePrefix(start, hs, events, n);
      }
      RunMarks(start, hs, events[..n], m);
      RunAddressable(start, hs, events[..n]);
      StepMarks(Run(start, hs, events[..n]), m, hs, events[n]);
    }
  }

  /** A process just started: nothing is tracked yet; loaded jobs may carry the marks of an earlier run. */
  ghost predicate Started(start: State) {
    start.active == map[] && MarksOk(start, AnyMarks)
  }

  ghost predicate CountsOkAt(start: State, hs: seq<Heuristic>, events: seq<Event>, i: nat, bounded: bool)
    requires i <= |events|
  {
    CountsOk(Run(start, hs, events[..i]).active, LastRefreshed(events[..i]), bounded)
  }

  ghost predicate BreaksAt(start: State, hs: seq<Heuristic>, events: seq<Event>, i: nat, bounded: bool)
    requires i < |events|
  {
    Breaks(Run(start, hs, events[..i]), LastRefreshed(events[..i]), events[i], bounded)
  }

  /** From right counts, event `i` of a run leads to right counts exactly when it does not break them. */
  lemma RunStepIff(start: State, hs: seq<Heuristic>, events: seq<Event>, i: nat, bounded: bool)
    requires GoodRun(start, events) && Started(start) && i < |events|
    requires CountsOkAt(start, hs, events, i, bounded)
    ensures CountsOkAt(start, hs, events, i + 1, bounded) <==> !BreaksAt(start, hs, events, i, bounded)
  {
    var before, next := events[..i], events[..i + 1];
    assert next[..i] == before && next[i] == events[i];
    GoodPrefix(start, events, i);
    RunAddressable(start, hs, before);
    RunMarks(start, hs, before, AnyMarks);
    StepBreaksIff(Run(start, hs, before), LastRefreshed(before), bounded, hs, events[i]);
  }

  /**
   * Over every run of a process, started empty or with loaded queues: the counts are natural, and if `bounded`
   * within their bound, all along the run if and only if no event breaks them.
   */
  lemma CountsKeptIff(start: State, hs: seq<Heuristic>, events: seq<Event>, bounded: bool)
    requires GoodRun(start, events) && Started(start)
    ensures (forall i :: 0 <= i <= |events| ==> CountsOkAt(start, hs, events, i, bounded))
            <==> (forall i :: 0 <= i < |events| ==> !BreaksAt(start, hs, events, i, bounded))
  {
    if forall i :: 0 <= i <= |events| ==> CountsOkAt(start, hs, events, i, bounded) {
      forall i | 0 <= i < |events| ensures !BreaksAt(start, hs, events, i, bounded) {
        RunStepIff(start, hs, events, i, bounded);
      }
    }
    if forall i :: 0 <= i < |events| ==> !BreaksAt(start, hs, events, i, bounded) {
      forall i | 0 <= i <= |events| ensures CountsOkAt(start, hs, events, i, bounded) {
        UnbrokenUpTo(start, hs, events, i, bounded);
      }
    }
  }

  lemma {:induction false} UnbrokenUpTo(start: State, hs: seq<Heuristic>, events: seq<Event>, i: nat, bounded: bool)
    requires GoodRun(start, events) && Started(start) && i <= |events|
    requires forall k :: 0 <= k < i ==> !BreaksAt(start, hs, events, k, bounded)
    ensures CountsOkAt(start, hs, events, i, bounded)
  {
    if i > 0 {
      UnbrokenUpTo(start, hs, events, i - 1, bounded);
      RunStepIff(start, hs, events, i - 1, bounded);
    }
  }

  lemma FirstHeldIsQueued(s: State, experiment: string, name: string)
    requires FirstHeld(s, experiment, name).Some?
    ensures FirstHeld(s, experiment, name).value in s.preferred || FirstHeld(s, experiment, name).value in s.main
  {
  }

  lemma TrackedNeverBreaks(start: State, hs: seq<Heuristic>, events: seq<Event>, i: nat)
    requires GoodRun(start, events) && start.active == map[] && MarksOk(start, NoMarks) && i < |events|
    ensures !BreaksAt(start, hs, events, i, false)
  {
    GoodPrefix(start, events, i);
    RunMarks(start, hs, events[..i], TrackedMarks);
    var s, e := Run(start, hs, events[..i]), events[i];
    if e.Finished? && FirstHeld(s, e.experiment, e.name).Some? {
      FirstHeldIsQueued(s, e.experiment, e.name);
      assert JobOk(FirstHeld(s, e.experiment, e.name).value, s.active.Keys, TrackedMarks);
    }
  }

  lemma UnmarkedNeverBreaks(start: State, hs: seq<Heuristic>, events: seq<Event>, i: nat)
    requires GoodRun(start, events) && ActiveAtIntervals(start, hs, events)
    requires MarksOk(start, NoMarks) && i < |events|
    ensures !BreaksAt(start, hs, events, i, true)
  {
    GoodPrefix(start, events, i);
    ActivePrefix(start, hs, events, i);
    RunMarks(start, hs, events[..i], NoMarks);
    var s, e := Run(start, hs, events[..i]), events[i];
    if e.Finished? && FirstHeld(s, e.experiment, e.name).Some? {
      FirstHeldIsQueued(s, e.experiment, e.name);
      assert JobOk(FirstHeld(s, e.experiment, e.name).value, s.active.Keys, NoMarks);
    }
  }

  /** Started without marks, the tracked counts of every run are natural numbers. */
  lemma CountsStayNatural(start: State, hs: seq<Heuristic>, events: seq<Event>, name: string)
    requires GoodRun(start, events) && start.active == map[] && MarksOk(start, NoMarks)
    requires name in Run(start, hs, events).active
    ensures Run(start, hs, events).active[name].count.Num?
    ensures Run(start, hs, events).active[name].count.n >= 0
  {
    forall i | 0 <= i < |events| ensures !BreaksAt(start, hs, events, i, false) {
      TrackedNeverBreaks(start, hs, events, i);
    }
    UnbrokenUpTo(start, hs, events, |events|, false);
    assert events[..|events|] == events;
  }

  /**
   * Started without marks and with the consumer active at every interval, a tracked count never passes the
   * larger of the count last read from Redis and the pipeline's limit.
   */
  lemma CountsStayBounded(start: State, hs: seq<Heuristic>, events: seq<Event>, name: string)
    requires GoodRun(start, events) && ActiveAtIntervals(start, hs, events)
    requires start.active == map[] && MarksOk(start, NoMarks) && name in Run(start, hs, events).active
    ensures var a := Run(start, hs, events).active[name];
            a.count.Num? && a.max.Some? && name in LastRefreshed(events)
            && 0 <= a.count.n <= Max(LastRefreshed(events)[name], a.max.value)
  {
    forall i | 0 <= i < |events| ensures !BreaksAt(start, hs, events, i, true) {
      UnmarkedNeverBreaks(start, hs, events, i);
    }
    UnbrokenUpTo(start, hs, events, |events|, true);
    assert events[..|events|] == events;
  }
}
