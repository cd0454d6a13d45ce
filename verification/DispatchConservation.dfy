/**
 * No step loses or duplicates a job: what has arrived is, at every moment, exactly what lies in the
 * two queues together with what was dispatched and what was stopped.
 */
module DispatchConservation {
  import opened Wrappers
  import opened DriverJobs
  import opened DriverQueue
  import opened StableSort
  import opened DispatchModel

  // ---------------------------------------------------------------- counting jobs

  /** A property of a job's own data; it never sees score or mark. */
  type Property = Job -> bool

  function IdIs(id: string): Property { (c: Job) => c.jobId == id }

  function Is(core: Job): Property { (c: Job) => c == core }

  ghost function One(j: Job, p: Property): nat { if p(Core(j)) then 1 else 0 }

  /** How many jobs of the list have the property. */
  ghost function Count(q: seq<Job>, p: Property): nat {
    if q == [] then 0 else One(q[0], p) + Count(q[1..], p)
  }

  /** How many jobs the system accounts for, wherever they are. */
  ghost function Held(s: State, p: Property): nat {
    Count(s.preferred, p) + Count(s.main, p) + Count(s.dispatched, p) + Count(s.stopped, p)
  }

  ghost predicate Unique(s: State) {
    forall id :: Held(s, IdIs(id)) <= 1
  }

  lemma {:induction false} CountAppend(a: seq<Job>, b: seq<Job>, p: Property)
    ensures Count(a + b, p) == Count(a, p) + Count(b, p)
  {
    if a == [] {
      assert a + b == b;
    } else {
      CountAppend(a[1..], b, p);
      assert (a + b)[1..] == a[1..] + b;
    }
  }

  lemma CountPush(q: seq<Job>, j: Job, p: Property)
    ensures Count(q + [j], p) == Count(q, p) + One(j, p)
  {
    CountAppend(q, [j], p);
    assert [j][1..] == [];
  }

  lemma CountSplice(q: seq<Job>, i: nat, j: Job, p: Property)
    requires i <= |q|
    ensures Count(q[..i] + [j] + q[i..], p) == Count(q, p) + One(j, p)
  {
    CountPush(q[..i], j, p);
    CountAppend(q[..i] + [j], q[i..], p);
    CountAppend(q[..i], q[i..], p);
    assert q == q[..i] + q[i..];
  }

  lemma {:induction false} CountSame(a: seq<Job>, b: seq<Job>, p: Property)
    requires |a| == |b| && forall i :: 0 <= i < |a| ==> Core(a[i]) == Core(b[i])
    ensures Count(a, p) == Count(b, p)
  {
    if a != [] {
      CountSame(a[1..], b[1..], p);
    }
  }

  lemma {:induction false} CountInsert(x: Job, q: seq<Job>, p: Property)
    ensures Count(Insert(x, q, ScoreOf), p) == One(x, p) + Count(q, p)
  {
    if q == [] {
      assert [x][1..] == [];
    } else if ScoreOf(x) >= ScoreOf(q[0]) {
      assert ([x] + q)[1..] == q;
    } else {
      var r := Insert(x, q[1..], ScoreOf);
      CountInsert(x, q[1..], p);
      assert ([q[0]] + r)[1..] == r;
    }
  }

  lemma {:induction false} CountSorted(q: seq<Job>, p: Property)
    ensures Count(SortedByScore(q), p) == Count(q, p)
  {
    if q != [] {
      CountSorted(q[1..], p);
      CountInsert(q[0], SortedByScore(q[1..]), p);
    }
  }

  /** Re-scoring and sorting changes no job and no count of jobs. */
  lemma CountRecalculated(sc: Scoring, now: int, q: seq<Job>, p: Property)
    ensures Count(Recalculated(sc, now, q), p) == Count(q, p)
  {
    CountSorted(RescoreAll(sc, now, q), p);
    CountSame(RescoreAll(sc, now, q), q, p);
  }

  lemma {:induction false} CountMember(q: seq<Job>, j: Job, p: Property)
    requires j in q && p(Core(j))
    ensures Count(q, p) >= 1
  {
    if q[0] != j {
      CountMember(q[1..], j, p);
    }
  }

  lemma {:induction false} CountNone(q: seq<Job>, p: Property)
    requires forall j :: j in q ==> !p(Core(j))
    ensures Count(q, p) == 0
  {
    if q != [] {
      assert q[0] in q;
      assert forall j :: j in q[1..] ==> j in q;
      CountNone(q[1..], p);
    }
  }

  lemma {:induction false} CountSome(q: seq<Job>, p: Property) returns (j: Job)
    requires Count(q, p) >= 1
    ensures j in q && p(Core(j))
  {
    if p(Core(q[0])) {
      j := q[0];
    } else {
      j := CountSome(q[1..], p);
    }
  }

  lemma {:induction false} WithoutAbsent(q: seq<Job>, id: string)
    requires Count(q, IdIs(id)) == 0
    ensures Without(q, id) == q
  {
    if q != [] {
      WithoutAbsent(q[1..], id);
      assert q == [q[0]] + q[1..];
    }
  }

  /** An id held once: taking it out removes exactly the job that was found. */
  lemma {:induction false} CountWithout(q: seq<Job>, id: string, p: Property)
    requires Count(q, IdIs(id)) <= 1 && FindJob(q, id).Some?
    ensures Count(q, p) == Count(Without(q, id), p) + One(FindJob(q, id).value, p)
  {
    if q[0].jobId == id {
      WithoutAbsent(q[1..], id);
      assert Without(q, id) == q[1..];
    } else {
      CountWithout(q[1..], id, p);
      assert ([q[0]] + Without(q[1..], id))[1..] == Without(q[1..], id);
    }
  }

  lemma {:induction false} FoundItself(q: seq<Job>, j: Job)
    requires j in q && Count(q, IdIs(j.jobId)) <= 1
    ensures FindJob(q, j.jobId) == Some(j)
  {
    if q[0].jobId == j.jobId {
      if j in q[1..] {
        CountMember(q[1..], j, IdIs(j.jobId));
        assert false;
      }
    } else {
      FoundItself(q[1..], j);
    }
  }

  // ---------------------------------------------------------------- steps

  lemma HeldInQ(s: State, w: Which, id: string)
    requires Unique(s)
    ensures Count(s.Q(w), IdIs(id)) <= 1
  {
    assert Held(s, IdIs(id)) <= 1;
  }

  lemma CreateJobConserves(s: State, job: Job, w: Which, p: Property)
    requires Count(s.Q(w), IdIs(job.jobId)) <= 1 && FindJob(s.Q(w), job.jobId).Some?
    requires Core(FindJob(s.Q(w), job.jobId).value) == Core(job)
    ensures Held(CreateJob(s, job, w), p) == Held(s, p)
  {
    CountWithout(s.Q(w), job.jobId, p);
    CountPush(s.dispatched, job.(updateRunning := 0), p);
  }

  lemma DispatchNextConserves(s: State, p: Property)
    requires Unique(s)
    ensures Held(DispatchNext(s), p) == Held(s, p)
  {
    match FirstEligible(s.preferred)
    case Some(j) =>
      HeldInQ(s, PreferredQ, j.jobId);
      FoundItself(s.preferred, j);
      CreateJobConserves(s, j, PreferredQ, p);
    case None =>
      match FirstEligible(s.main)
      case Some(j) =>
        HeldInQ(s, MainQ, j.jobId);
        FoundItself(s.main, j);
        CreateJobConserves(s, j, MainQ, p);
      case None =>
  }

  lemma DispatchByIdConserves(s: State, id: string, p: Property)
    requires Unique(s)
    ensures Held(DispatchById(s, id), p) == Held(s, p)
  {
    match if id == "" then None else FindJobByJobId(s, id)
    case Some(found) =>
      HeldInQ(s, found.1, id);
      CreateJobConserves(s, found.0, found.1, p);
    case None => DispatchNextConserves(s, p);
  }

  lemma CheckQueueConserves(s: State, pending: Which -> int, p: Property)
    requires Unique(s)
    ensures Held(CheckQueue(s, pending), p) == Held(s, p)
  {
    if FirstEligible(s.preferred).Some? && pending(PreferredQ) == 0 {
      var j := FirstEligible(s.preferred).value;
      HeldInQ(s, PreferredQ, j.jobId);
      FoundItself(s.preferred, j);
      CreateJobConserves(s, j, PreferredQ, p);
    } else if FirstEligible(s.main).Some? && pending(MainQ) == 0 {
      var j := FirstEligible(s.main).value;
      HeldInQ(s, MainQ, j.jobId);
      FoundItself(s.main, j);
      CreateJobConserves(s, j, MainQ, p);
    }
  }

  lemma OnInsertConserves(s: State, p: Property)
    requires Unique(s)
    ensures Held(OnInsert(s), p) == Held(s, p)
  {
    if s.consumerActive {
      DispatchNextConserves(s, p);
    }
  }

  lemma ArriveConserves(s: State, hs: seq<Heuristic>, job: Job, now: int, p: Property)
    requires forall id :: Held(s, IdIs(id)) + One(job, IdIs(id)) <= 1
    ensures Held(Arrive(s, hs, job, now), p) == Held(s, p) + One(job, p)
  {
    var t := s.(main := Recalculated(Weighted(hs), now, s.main + [job]));
    forall r: Property ensures Held(t, r) == Held(s, r) + One(job, r) {
      CountRecalculated(Weighted(hs), now, s.main + [job], r);
      CountPush(s.main, job, r);
    }
    forall id ensures Held(t, IdIs(id)) <= 1 {
      assert Held(s, IdIs(id)) + One(job, IdIs(id)) <= 1;
    }
    OnInsertConserves(t, p);
  }

  lemma StopConserves(s: State, id: string, p: Property)
    requires Unique(s)
    ensures Held(Stop(s, id), p) == Held(s, p)
  {
    match FindJobByJobId(s, id)
    case None =>
    case Some(found) =>
      HeldInQ(s, found.1, id);
      CountWithout(s.Q(found.1), id, p);
      CountPush(s.stopped, found.0, p);
  }

  lemma UniqueKept(s: State, t: State)
    requires Unique(s) && forall p :: Held(t, p) == Held(s, p)
    ensures Unique(t)
  {
  }

  lemma UnpreferOneConserves(s: State, id: string, p: Property)
    requires Unique(s)
    ensures Held(UnpreferOne(s, id), p) == Held(s, p)
  {
    match FindJob(s.preferred, id)
    case None =>
    case Some(job) =>
      HeldInQ(s, PreferredQ, id);
      var t := s.(preferred := Without(s.preferred, id), main := s.main + [job]);
      forall r: Property ensures Held(t, r) == Held(s, r) {
        CountWithout(s.preferred, id, r);
        CountPush(s.main, job, r);
      }
      UniqueKept(s, t);
      OnInsertConserves(t, p);
  }

  /** The re-entrant dispatch inside the loop conserves too. */
  lemma {:induction false} UnpreferEachConserves(s: State, ids: seq<string>, p: Property)
    requires Unique(s)
    ensures Held(UnpreferEach(s, ids), p) == Held(s, p)
    decreases |ids|
  {
    if ids != [] {
      var t := UnpreferOne(s, ids[0]);
      forall r: Property ensures Held(t, r) == Held(s, r) {
        UnpreferOneConserves(s, ids[0], r);
      }
      UniqueKept(s, t);
      UnpreferEachConserves(t, ids[1..], p);
    }
  }

  lemma PreferOneConserves(s: State, id: string, i: nat, p: Property)
    requires Unique(s) && i <= |s.preferred|
    ensures Held(PreferOne(s, id, i), p) == Held(s, p)
  {
    match FindJob(s.main, id)
    case None =>
    case Some(job) =>
      HeldInQ(s, MainQ, id);
      CountWithout(s.main, id, p);
      CountSplice(s.preferred, i, job.(score := 1.0), p);
  }

  lemma {:induction false} PreferEachConserves(s: State, ids: seq<string>, i: nat, p: Property)
    requires Unique(s) && i <= |s.preferred|
    ensures Held(PreferEach(s, ids, i), p) == Held(s, p)
    decreases |ids|
  {
    if ids != [] {
      var t := PreferOne(s, ids[|ids| - 1], i);
      forall r: Property ensures Held(t, r) == Held(s, r) {
        PreferOneConserves(s, ids[|ids| - 1], i, r);
      }
      UniqueKept(s, t);
      PreferEachConserves(t, ids[..|ids| - 1], i, p);
    }
  }

  lemma MarkConserves(s: State, w: Which, i: nat, mark: int, p: Property)
    requires i < |s.Q(w)|
    ensures Held(Mark(s, w, i, mark), p) == Held(s, p)
  {
    CountSame(Mark(s, w, i, mark).Q(w), s.Q(w), p);
  }

  lemma CheckMaxExceededInConserves(
      s: State, experiment: string, name: string, increment: bool, w: Which, p: Property)
    requires Unique(s)
    ensures Held(CheckMaxExceededIn(s, experiment, name, increment, w).0, p) == Held(s, p)
  {
    var i := FindHeld(s.Q(w), experiment, name);
    if i < |s.Q(w)| {
      MarkConserves(s, w, i, 0, p);
      var t := if increment then Mark(s, w, i, 1) else s;
      forall r: Property ensures Held(t, r) == Held(s, r) {
        MarkConserves(s, w, i, 1, r);
      }
      UniqueKept(s, t);
      DispatchByIdConserves(t, t.Q(w)[i].jobId, p);
    }
  }

  lemma {:induction false} PromoteEachConserves(
      s: State, pipelines: seq<StoredPipeline>, snapshot: seq<Job>, w: Which, p: Property)
    requires Unique(s)
    requires forall p :: p in pipelines ==> FirstHeldOf(snapshot, p.name).Some?
    ensures Held(PromoteEach(s, pipelines, snapshot, w), p) == Held(s, p)
    decreases |pipelines|
  {
    if pipelines != [] {
      var pl := pipelines[0];
      var t := Promote(s, pl, snapshot, w);
      forall r: Property ensures Held(t, r) == Held(s, r) {
        CheckMaxExceededInConserves(
          s, FirstHeldOf(snapshot, pl.name).value.experimentName, pl.name, true, w, r);
      }
      UniqueKept(s, t);
      PromoteEachConserves(t, pipelines[1..], snapshot, w, p);
    }
  }

  // ---------------------------------------------------------------- runs

  /** Whether the event brings in a job with the property. */
  ghost function Arrives(e: Event, p: Property): nat {
    match e
    case Arrival(id, pipeline, now) => One(PipelineToQueueAdapter(id, pipeline, now), p)
    case _ => 0
  }

  ghost function ArrivedIn(events: seq<Event>, p: Property): nat {
    if events == [] then 0
    else ArrivedIn(events[..|events| - 1], p) + Arrives(events[|events| - 1], p)
  }

  /** A resumed check is timely when the job it picked still waits in the queue it was picked from. */
  ghost predicate Timely(s: State, e: Event) {
    e.CheckResumed? ==>
      FindJob(s.Q(e.w), e.picked.jobId).Some? && Core(FindJob(s.Q(e.w), e.picked.jobId).value) == Core(e.picked)
  }

  ghost predicate AllTimely(s: State, hs: seq<Heuristic>, events: seq<Event>) {
    forall i :: 0 <= i < |events| ==> Timely(Run(s, hs, events[..i]), events[i])
  }

  lemma ArrivalConserves(s: State, hs: seq<Heuristic>, id: string, pipeline: Pipeline, now: int, p: Property)
    requires forall i :: Held(s, IdIs(i)) + Arrives(Arrival(id, pipeline, now), IdIs(i)) <= 1
    ensures Held(Step(s, hs, Arrival(id, pipeline, now)), p) == Held(s, p) + Arrives(Arrival(id, pipeline, now), p)
  {
    var job := PipelineToQueueAdapter(id, pipeline, now);
    forall i ensures Held(s, IdIs(i)) + One(job, IdIs(i)) <= 1 {
      assert Held(s, IdIs(i)) + Arrives(Arrival(id, pipeline, now), IdIs(i)) <= 1;
    }
    ArriveConserves(s, hs, job, now, p);
  }

  lemma UnpreferringConserves(s: State, hs: seq<Heuristic>, ids: seq<string>, now: int, p: Property)
    requires Unique(s)
    ensures Held(Step(s, hs, Unpreferring(ids, now)), p) == Held(s, p)
  {
    UnpreferEachConserves(s, ids, p);
    CountRecalculated(Weighted(hs), now, UnpreferEach(s, ids).main, p);
  }

  lemma ActivationConserves(s: State, p: Property)
    requires Unique(s)
    ensures Held(DispatchNext(s.(consumerActive := true)), p) == Held(s, p)
  {
    UniqueKept(s, s.(consumerActive := true));
    DispatchNextConserves(s.(consumerActive := true), p);
  }

  lemma IntervalConserves(s: State, w: Which, snapshot: seq<Job>, redis: map<string, nat>,
                          stored: seq<StoredPipeline>, p: Property)
    requires Unique(s)
    ensures Held(Interval(s, w, snapshot, redis, stored), p) == Held(s, p)
  {
    var pipelines := Relevant(stored, snapshot);
    var t := s.(active := Refresh(s.active, pipelines, redis));
    UniqueKept(s, t);
    PromoteEachConserves(t, pipelines, snapshot, w, p);
  }

  lemma FinishedConserves(s: State, experiment: string, name: string, p: Property)
    requires Unique(s)
    ensures Held(CheckMaxExceeded(s, experiment, name), p) == Held(s, p)
  {
    var t := CheckMaxExceededIn(s, experiment, name, false, PreferredQ).0;
    forall r: Property ensures Held(t, r) == Held(s, r) {
      CheckMaxExceededInConserves(s, experiment, name, false, PreferredQ, r);
    }
    UniqueKept(s, t);
    CheckMaxExceededInConserves(t, experiment, name, false, MainQ, p);
  }

  /** Events that move jobs between queues, or in and out. */
  predicate Moves(e: Event) { e.Arrival? || e.Stopping? || e.Preferring? || e.Unpreferring? }

  lemma UniqueBefore(s: State, e: Event)
    requires forall id :: Held(s, IdIs(id)) + Arrives(e, IdIs(id)) <= 1
    ensures Unique(s)
  {
    forall id ensures Held(s, IdIs(id)) <= 1 {
      assert Held(s, IdIs(id)) + Arrives(e, IdIs(id)) <= 1;
    }
  }

  lemma MoveConserves(s: State, hs: seq<Heuristic>, e: Event, p: Property)
    requires Moves(e) && forall id :: Held(s, IdIs(id)) + Arrives(e, IdIs(id)) <= 1
    ensures Held(Step(s, hs, e), p) == Held(s, p) + Arrives(e, p)
  {
    UniqueBefore(s, e);
    match e
    case Arrival(id, pipeline, now) => ArrivalConserves(s, hs, id, pipeline, now, p);
    case Stopping(id) => StopConserves(s, id, p);
    case Preferring(ids, place) => PreferEachConserves(s, ids, GetIndex(s.preferred, place), p);
    case Unpreferring(ids, now) => UnpreferringConserves(s, hs, ids, now, p);
  }

  lemma ServiceConserves(s: State, hs: seq<Heuristic>, e: Event, p: Property)
    requires !Moves(e) && Unique(s) && Timely(s, e)
    ensures Held(Step(s, hs, e), p) == Held(s, p)
  {
    match e
    case ConsumerWaiting =>
    case ConsumerActive => ActivationConserves(s, p);
    case Finished(experiment, name) => FinishedConserves(s, experiment, name, p);
    case IntervalOn(w, snapshot, redis, stored) => IntervalConserves(s, w, snapshot, redis, stored, p);
    case Checking(pending) => CheckQueueConserves(s, pending, p);
    case CheckResumed(picked, w) =>
      HeldInQ(s, w, picked.jobId);
      CreateJobConserves(s, picked, w, p);
  }

  lemma StepConserves(s: State, hs: seq<Heuristic>, e: Event, p: Property)
    requires forall id :: Held(s, IdIs(id)) + Arrives(e, IdIs(id)) <= 1
    requires Timely(s, e)
    ensures Held(Step(s, hs, e), p) == Held(s, p) + Arrives(e, p)
  {
    if Moves(e) {
      MoveConserves(s, hs, e, p);
    } else {
      UniqueBefore(s, e);
      ServiceConserves(s, hs, e, p);
    }
  }

  /** Over every run in which an id arrives at most once, nothing is lost and nothing is duplicated. */
  lemma {:induction false} RunConserves(s: State, hs: seq<Heuristic>, events: seq<Event>, p: Property)
    requires forall id :: Held(s, IdIs(id)) + ArrivedIn(events, IdIs(id)) <= 1
    requires AllTimely(s, hs, events)
    ensures Held(Run(s, hs, events), p) == Held(s, p) + ArrivedIn(events, p)
  {
    if events != [] {
      var before, e := events[..|events| - 1], events[|events| - 1];
      forall id ensures Held(s, IdIs(id)) + ArrivedIn(before, IdIs(id)) <= 1 {
        assert Held(s, IdIs(id)) + ArrivedIn(events, IdIs(id)) <= 1;
      }
      forall i | 0 <= i < |before| ensures Timely(Run(s, hs, before[..i]), before[i]) {
        assert before[..i] == events[..i];
      }
      var t := Run(s, hs, before);
      forall r: Property ensures Held(t, r) == Held(s, r) + ArrivedIn(before, r) {
        RunConserves(s, hs, before, r);
      }
      forall id ensures Held(t, IdIs(id)) + Arrives(e, IdIs(id)) <= 1 {
        assert Held(s, IdIs(id)) + ArrivedIn(events, IdIs(id)) <= 1;
      }
      StepConserves(t, hs, e, p);
    }
  }

  /** Where a job may be. */
  datatype Whereabouts = InPreferred | InMain | Dispatched | Stopped

  function At(s: State, p: Whereabouts): seq<Job> {
    match p
    case InPreferred => s.preferred
    case InMain => s.main
    case Dispatched => s.dispatched
    case Stopped => s.stopped
  }

  lemma ElsewhereNone(s: State, job: Job, p: Whereabouts, r: Whereabouts)
    requires Held(s, IdIs(job.jobId)) == 1 && Count(At(s, p), IdIs(job.jobId)) == 1 && r != p
    ensures !HasId(At(s, r), job.jobId)
  {
    if HasId(At(s, r), job.jobId) {
      var i :| 0 <= i < |At(s, r)| && At(s, r)[i].jobId == job.jobId;
      CountMember(At(s, r), At(s, r)[i], IdIs(job.jobId));
      assert false;
    }
  }

  lemma EmptyHolds(p: Property)
    ensures Held(EMPTY, p) == 0
  {
  }

  /** From an empty system: every arrived job is in exactly one place, once, with its own data. */
  lemma EachJobInExactlyOnePlace(hs: seq<Heuristic>, events: seq<Event>, job: Job)
    requires forall id :: ArrivedIn(events, IdIs(id)) <= 1
    requires AllTimely(EMPTY, hs, events)
    requires ArrivedIn(events, Is(job)) == 1
    ensures var s := Run(EMPTY, hs, events);
            exists p :: Count(At(s, p), IdIs(job.jobId)) == 1
                     && Count(At(s, p), Is(job)) == 1
                     && (forall r :: r != p ==> !HasId(At(s, r), job.jobId))
  {
    var s := Run(EMPTY, hs, events);
    forall id ensures Held(EMPTY, IdIs(id)) + ArrivedIn(events, IdIs(id)) <= 1 {
      EmptyHolds(IdIs(id));
    }
    EmptyHolds(Is(job));
    EmptyHolds(IdIs(job.jobId));
    RunConserves(EMPTY, hs, events, Is(job));
    RunConserves(EMPTY, hs, events, IdIs(job.jobId));
    var p := OnePlace(s, job);
  }

  lemma OnePlace(s: State, job: Job) returns (p: Whereabouts)
    requires Held(s, Is(job)) == 1 && Held(s, IdIs(job.jobId)) <= 1
    ensures Count(At(s, p), IdIs(job.jobId)) == 1 && Count(At(s, p), Is(job)) == 1
    ensures forall r :: r != p ==> !HasId(At(s, r), job.jobId)
  {
    p := if Count(s.preferred, Is(job)) > 0 then InPreferred
         else if Count(s.main, Is(job)) > 0 then InMain
         else if Count(s.dispatched, Is(job)) > 0 then Dispatched
         else Stopped;
    var j := CountSome(At(s, p), Is(job));
    CountMember(At(s, p), j, IdIs(job.jobId));
    forall r | r != p ensures !HasId(At(s, r), job.jobId) {
      ElsewhereNone(s, job, p, r);
    }
  }

  // ---------------------------------------------------------------- the resumed check

  /**
   * The check waits between picking and dispatching. Dispatching its pick keeps the account of the
   * jobs right if and only if the picked job still waits in the queue it was picked from.
   */
  lemma ResumedCheckConservesIff(s: State, hs: seq<Heuristic>, picked: Job, w: Which)
    requires Unique(s) && Held(s, Is(Core(picked))) == 1
    ensures (forall p :: Held(Step(s, hs, CheckResumed(picked, w)), p) == Held(s, p))
            <==> HasId(s.Q(w), picked.jobId)
  {
    if HasId(s.Q(w), picked.jobId) {
      HeldInQ(s, w, picked.jobId);
      SameIdSameCore(s, picked, w);
      forall p ensures Held(Step(s, hs, CheckResumed(picked, w)), p) == Held(s, p) {
        CreateJobConserves(s, picked, w, p);
      }
    } else {
      StalePickAddsOne(s, picked, w);
    }
  }

  lemma StalePickAddsOne(s: State, picked: Job, w: Which)
    requires !HasId(s.Q(w), picked.jobId)
    ensures Held(CreateJob(s, picked, w), Is(Core(picked))) == Held(s, Is(Core(picked))) + 1
  {
    CountNone(s.Q(w), IdIs(picked.jobId));
    WithoutAbsent(s.Q(w), picked.jobId);
    CountPush(s.dispatched, picked.(updateRunning := 0), Is(Core(picked)));
  }

  lemma SameIdSameCore(s: State, picked: Job, w: Which)
    requires Unique(s) && Held(s, Is(Core(picked))) == 1 && HasId(s.Q(w), picked.jobId)
    ensures Core(FindJob(s.Q(w), picked.jobId).value) == Core(picked)
  {
    var f := FindJob(s.Q(w), picked.jobId).value;
    CountMember(s.Q(w), f, IdIs(picked.jobId));
    CountLe(s.preferred, picked);
    CountLe(s.main, picked);
    CountLe(s.dispatched, picked);
    CountLe(s.stopped, picked);
    assert Held(s, IdIs(picked.jobId)) <= 1;
    assert Count(s.Q(w), Is(Core(picked))) == 1;
    var j := CountSome(s.Q(w), Is(Core(picked)));
    FoundItself(s.Q(w), j);
  }

  lemma {:induction false} CountLe(q: seq<Job>, picked: Job)
    ensures Count(q, Is(Core(picked))) <= Count(q, IdIs(picked.jobId))
  {
    if q != [] {
      CountLe(q[1..], picked);
    }
  }

  /** A waits while the consumer is busy; then another event dispatches it, and then the check goes on. */
  function StaleRun(p: Pipeline, picked: Job): seq<Event> {
    [ConsumerWaiting, Arrival("a", p, 1), ConsumerActive, CheckResumed(picked, MainQ)]
  }

  /** The arrived job as it waits, scored. */
  function Waiter(p: Pipeline): Job { Rescore(Weighted(CONFIGURED), 1, PipelineToQueueAdapter("a", p, 1)) }

  lemma WaiterData(p: Pipeline)
    ensures Waiter(p).jobId == "a" && Waiter(p).maxExceeded == p.maxExceeded && Waiter(p).updateRunning == 0
  {
    assert Core(Waiter(p)).jobId == "a" && Core(Waiter(p)).maxExceeded == p.maxExceeded;
  }

  lemma StaleRunWaits(p: Pipeline, picked: Job)
    ensures Run(EMPTY, CONFIGURED, StaleRun(p, picked)[..2]) == State([], [Waiter(p)], [], [], false, map[])
  {
    var events := StaleRun(p, picked);
    var job := PipelineToQueueAdapter("a", p, 1);
    assert events[..2][..1] == events[..1] && events[..1][..0] == [];
    assert Run(EMPTY, CONFIGURED, events[..1]) == EMPTY.(consumerActive := false);
    assert [] + [job] == [job];
    assert RescoreAll(Weighted(CONFIGURED), 1, [job]) == [Waiter(p)];
    assert SortedByScore([Waiter(p)]) == [Waiter(p)];
  }

  lemma OneWaiterDispatched(x: Job)
    requires !x.maxExceeded && x.updateRunning == 0
    ensures DispatchNext(State([], [x], [], [], true, map[])) == State([], [], [x], [], true, map[])
  {
    assert FirstEligible([x]) == Some(x) && Without([x], x.jobId) == [];
    assert x.(updateRunning := 0) == x && [] + [x] == [x];
  }

  lemma RunThen(start: State, hs: seq<Heuristic>, before: seq<Event>, e: Event)
    ensures Run(start, hs, before + [e]) == Step(Run(start, hs, before), hs, e)
  {
    assert (before + [e])[..|before|] == before;
  }

  lemma HandedOutAgain(s: State, x: Job)
    requires s.dispatched == [x] && x.updateRunning == 0
    ensures CreateJob(s, x, MainQ).dispatched == [x, x]
  {
    assert x.(updateRunning := 0) == x && [x] + [x] == [x, x];
  }

  lemma StepOfTwo(s: State, hs: seq<Heuristic>, x: Job)
    ensures Step(s, hs, ConsumerActive) == DispatchNext(s.(consumerActive := true))
    ensures Step(s, hs, CheckResumed(x, MainQ)) == CreateJob(s, x, MainQ)
  {
  }

  /** From one eligible waiter: the consumer gets it, and the stale pick is handed out again. */
  lemma StaleRunEnds(hs: seq<Heuristic>, before: seq<Event>, x: Job)
    requires Run(EMPTY, hs, before) == State([], [x], [], [], false, map[])
    requires !x.maxExceeded && x.updateRunning == 0
    ensures Run(EMPTY, hs, before + [ConsumerActive] + [CheckResumed(x, MainQ)]).dispatched == [x, x]
  {
    var s, t := State([], [x], [], [], false, map[]), State([], [], [x], [], true, map[]);
    RunThen(EMPTY, hs, before, ConsumerActive);
    RunThen(EMPTY, hs, before + [ConsumerActive], CheckResumed(x, MainQ));
    StepOfTwo(s, hs, x);
    StepOfTwo(t, hs, x);
    OneWaiterDispatched(x);
    HandedOutAgain(t, x);
  }

  lemma StaleRunArrivals(p: Pipeline, picked: Job, id: string)
    ensures ArrivedIn(StaleRun(p, picked), IdIs(id)) <= 1
  {
    var events := StaleRun(p, picked);
    assert events[..3][..2] == events[..2] && events[..2][..1] == events[..1] && events[..1][..0] == [];
    assert ArrivedIn(events[..1], IdIs(id)) == 0;
    assert ArrivedIn(events[..2], IdIs(id)) <= 1;
    assert ArrivedIn(events[..3], IdIs(id)) <= 1;
  }

  /**
   * A run where it fails: the check picks the first eligible job of main after the arrival and waits; the consumer
   * becomes active and gets the job; the check goes on and dispatches it again.
   */
  lemma ResumedCheckMayDispatchTwice(p: Pipeline)
    requires !p.maxExceeded
    ensures var events := StaleRun(p, Waiter(p));
            var s, t := Run(EMPTY, CONFIGURED, events[..2]), Run(EMPTY, CONFIGURED, events);
            && (forall id :: ArrivedIn(events, IdIs(id)) <= 1)
            && FirstEligible(s.preferred).None? && FirstEligible(s.main) == Some(Waiter(p))
            && |t.dispatched| == 2 && t.dispatched[0].jobId == t.dispatched[1].jobId == "a"
  {
    var events := StaleRun(p, Waiter(p));
    WaiterData(p);
    StaleRunWaits(p, Waiter(p));
    assert events == events[..2] + [ConsumerActive] + [CheckResumed(Waiter(p), MainQ)];
    StaleRunEnds(CONFIGURED, events[..2], Waiter(p));
    forall id ensures ArrivedIn(events, IdIs(id)) <= 1 {
      StaleRunArrivals(p, Waiter(p), id);
    }
  }
}
