/**
 * The ids of the waiting jobs over whole runs: no step puts a job into a queue that was not there or did not just
 * arrive, so distinct ids stay distinct, whatever stale checks hand out. A waiting job can be found by its id.
 */
module DispatchAddressing {
  import opened Wrappers
  import opened DriverJobs
  import opened DriverQueue
  import opened DispatchModel
  import opened DispatchConservation

  /** How many waiting jobs have the property. */
  ghost function Waits(s: State, p: Property): nat {
    Count(s.preferred, p) + Count(s.main, p)
  }

  /** The waiting ids are distinct and none is empty, so a job is found again by its id. */
  ghost predicate Addressable(s: State) {
    (forall id :: Waits(s, IdIs(id)) <= 1) && Waits(s, IdIs("")) == 0
  }

  /** The same queues or less, whatever else changed. */
  ghost predicate NoMoreWait(s: State, t: State) {
    forall p: Property :: Waits(t, p) <= Waits(s, p)
  }

  lemma AddressableKept(s: State, t: State)
    requires Addressable(s) && NoMoreWait(s, t)
    ensures Addressable(t)
  {
    forall id ensures Waits(t, IdIs(id)) <= Waits(s, IdIs(id)) {
    }
  }

  lemma FindsIt(s: State, w: Which, i: nat)
    requires Addressable(s) && i < |s.Q(w)|
    ensures s.Q(w)[i].jobId != "" && FindJobByJobId(s, s.Q(w)[i].jobId) == Some((s.Q(w)[i], w))
  {
    var j := s.Q(w)[i];
    assert j in s.Q(w) && Waits(s, IdIs(j.jobId)) <= 1;
    FoundItself(s.Q(w), j);
    CountMember(s.Q(w), j, IdIs(j.jobId));
    if w == MainQ && FindJob(s.preferred, j.jobId).Some? {
      CountMember(s.preferred, FindJob(s.preferred, j.jobId).value, IdIs(j.jobId));
      assert false;
    }
  }

  // ---------------------------------------------------------------- steps

  /** Taking out an id takes out the job that was found, and maybe more. */
  lemma {:induction false} CountTakenOut(q: seq<Job>, id: string, p: Property)
    ensures Count(Without(q, id), p) + (match FindJob(q, id) case Some(j) => One(j, p) case None => 0) <= Count(q, p)
  {
    if q != [] {
      CountTakenOut(q[1..], id, p);
      var rest := Without(q[1..], id);
      if q[0].jobId == id {
        assert Without(q, id) == rest;
      } else {
        assert Without(q, id) == [q[0]] + rest && ([q[0]] + rest)[1..] == rest;
      }
    }
  }

  lemma CreateJobWaits(s: State, job: Job, w: Which, p: Property)
    ensures Waits(CreateJob(s, job, w), p) <= Waits(s, p)
  {
    CountTakenOut(s.Q(w), job.jobId, p);
  }

  lemma DispatchNextWaits(s: State, p: Property)
    ensures Waits(DispatchNext(s), p) <= Waits(s, p)
  {
    match FirstEligible(s.preferred)
    case Some(j) => CreateJobWaits(s, j, PreferredQ, p);
    case None =>
      match FirstEligible(s.main)
      case Some(j) => CreateJobWaits(s, j, MainQ, p);
      case None =>
  }

  lemma DequeueJobWaits(s: State, id: string, p: Property)
    ensures Waits(DequeueJob(s, id), p) <= Waits(s, p)
  {
    match if id == "" then None else FindJobByJobId(s, id)
    case Some(found) => CreateJobWaits(s, found.0, found.1, p);
    case None => DispatchNextWaits(s, p);
  }

  lemma CheckQueueWaits(s: State, pending: Which -> int, p: Property)
    ensures Waits(CheckQueue(s, pending), p) <= Waits(s, p)
  {
    if FirstEligible(s.preferred).Some? {
      CreateJobWaits(s, FirstEligible(s.preferred).value, PreferredQ, p);
    }
    if FirstEligible(s.main).Some? {
      CreateJobWaits(s, FirstEligible(s.main).value, MainQ, p);
    }
  }

  lemma ArriveWaits(s: State, hs: seq<Heuristic>, job: Job, now: int, p: Property)
    ensures Waits(Arrive(s, hs, job, now), p) <= Waits(s, p) + One(job, p)
  {
    CountRecalculated(Weighted(hs), now, s.main + [job], p);
    CountPush(s.main, job, p);
    DispatchNextWaits(s.(main := Recalculated(Weighted(hs), now, s.main + [job])), p);
  }

  lemma StopWaits(s: State, id: string, p: Property)
    ensures Waits(Stop(s, id), p) <= Waits(s, p)
  {
    CountTakenOut(s.preferred, id, p);
    CountTakenOut(s.main, id, p);
  }

  lemma UnpreferOneWaits(s: State, id: string, p: Property)
    ensures Waits(UnpreferOne(s, id), p) <= Waits(s, p)
  {
    match FindJob(s.preferred, id)
    case None =>
    case Some(job) =>
      CountTakenOut(s.preferred, id, p);
      CountPush(s.main, job, p);
      DispatchNextWaits(s.(preferred := Without(s.preferred, id), main := s.main + [job]), p);
  }

  lemma {:induction false} UnpreferEachWaits(s: State, ids: seq<string>, p: Property)
    ensures Waits(UnpreferEach(s, ids), p) <= Waits(s, p)
    decreases |ids|
  {
    if ids != [] {
      UnpreferOneWaits(s, ids[0], p);
      UnpreferEachWaits(UnpreferOne(s, ids[0]), ids[1..], p);
    }
  }

  lemma PreferOneWaits(s: State, id: string, i: nat, p: Property)
    requires i <= |s.preferred|
    ensures Waits(PreferOne(s, id, i), p) <= Waits(s, p)
  {
    match FindJob(s.main, id)
    case None =>
    case Some(job) =>
      CountTakenOut(s.main, id, p);
      CountSplice(s.preferred, i, job.(score := 1.0), p);
  }

  lemma {:induction false} PreferEachWaits(s: State, ids: seq<string>, i: nat, p: Property)
    requires i <= |s.preferred|
    ensures Waits(PreferEach(s, ids, i), p) <= Waits(s, p)
    decreases |ids|
  {
    if ids != [] {
      PreferOneWaits(s, ids[|ids| - 1], i, p);
      PreferEachWaits(PreferOne(s, ids[|ids| - 1], i), ids[..|ids| - 1], i, p);
    }
  }

  lemma MarkWaits(s: State, w: Which, i: nat, mark: int, p: Property)
    requires i < |s.Q(w)|
    ensures Waits(Mark(s, w, i, mark), p) == Waits(s, p)
  {
    CountSame(Mark(s, w, i, mark).Q(w), s.Q(w), p);
  }

  lemma CheckMaxExceededInWaits(s: State, experiment: string, name: string, increment: bool, w: Which, p: Property)
    ensures Waits(CheckMaxExceededIn(s, experiment, name, increment, w).0, p) <= Waits(s, p)
  {
    var i := FindHeld(s.Q(w), experiment, name);
    if i < |s.Q(w)| {
      MarkWaits(s, w, i, 0, p);
      MarkWaits(s, w, i, 1, p);
      var t := if increment then Mark(s, w, i, 1) else s;
      DequeueJobWaits(t, t.Q(w)[i].jobId, p);
    }
  }

  lemma {:induction false} PromoteEachWaits(
      s: State, pipelines: seq<StoredPipeline>, snapshot: seq<Job>, w: Which, p: Property)
    requires forall x :: x in pipelines ==> FirstHeldOf(snapshot, x.name).Some?
    ensures Waits(PromoteEach(s, pipelines, snapshot, w), p) <= Waits(s, p)
    decreases |pipelines|
  {
    if pipelines != [] {
      var x := pipelines[0];
      CheckMaxExceededInWaits(s, FirstHeldOf(snapshot, x.name).value.experimentName, x.name, true, w, p);
      PromoteEachWaits(Promote(s, x, snapshot, w), pipelines[1..], snapshot, w, p);
    }
  }

  lemma IntervalWaits(s: State, w: Which, snapshot: seq<Job>, redis: map<string, nat>, stored: seq<StoredPipeline>,
                      p: Property)
    ensures Waits(Interval(s, w, snapshot, redis, stored), p) <= Waits(s, p)
  {
    var pipelines := Relevant(stored, snapshot);
    PromoteEachWaits(s.(active := Refresh(s.active, pipelines, redis)), pipelines, snapshot, w, p);
  }

  lemma FinishedWaits(s: State, experiment: string, name: string, p: Property)
    ensures Waits(CheckMaxExceeded(s, experiment, name), p) <= Waits(s, p)
  {
    CheckMaxExceededInWaits(s, experiment, name, false, PreferredQ, p);
    CheckMaxExceededInWaits(
      CheckMaxExceededIn(s, experiment, name, false, PreferredQ).0, experiment, name, false, MainQ, p);
  }

  lemma UnpreferWaits(s: State, hs: seq<Heuristic>, ids: seq<string>, now: int, p: Property)
    ensures Waits(Unprefer(s, hs, ids, now), p) <= Waits(s, p)
  {
    UnpreferEachWaits(s, ids, p);
    CountRecalculated(Weighted(hs), now, UnpreferEach(s, ids).main, p);
  }

  lemma MoveWaits(s: State, hs: seq<Heuristic>, e: Event, p: Property)
    requires Moves(e)
    ensures Waits(Step(s, hs, e), p) <= Waits(s, p) + Arrives(e, p)
  {
    match e
    case Arrival(id, pipeline, now) => ArriveWaits(s, hs, PipelineToQueueAdapter(id, pipeline, now), now, p);
    case Stopping(id) => StopWaits(s, id, p);
    case Preferring(ids, place) => PreferEachWaits(s, ids, GetIndex(s.preferred, place), p);
    case Unpreferring(ids, now) => UnpreferWaits(s, hs, ids, now, p);
  }

  lemma ServiceWaits(s: State, hs: seq<Heuristic>, e: Event, p: Property)
    requires !Moves(e)
    ensures Waits(Step(s, hs, e), p) <= Waits(s, p)
  {
    match e
    case ConsumerWaiting =>
    case ConsumerActive => DispatchNextWaits(s.(consumerActive := true), p);
    case Finished(experiment, name) => FinishedWaits(s, experiment, name, p);
    case IntervalOn(w, snapshot, redis, stored) => IntervalWaits(s, w, snapshot, redis, stored, p);
    case Checking(pending) => CheckQueueWaits(s, pending, p);
    case CheckResumed(picked, w) => CreateJobWaits(s, picked, w, p);
  }

  /** No step makes more jobs wait than arrive with it. */
  lemma StepWaits(s: State, hs: seq<Heuristic>, e: Event, p: Property)
    ensures Waits(Step(s, hs, e), p) <= Waits(s, p) + Arrives(e, p)
  {
    if Moves(e) {
      MoveWaits(s, hs, e, p);
    } else {
      ServiceWaits(s, hs, e, p);
    }
  }

  // ---------------------------------------------------------------- runs

  /** Over every run, stale checks included, no more jobs wait than waited at the start or arrived. */
  lemma {:induction false} RunWaits(start: State, hs: seq<Heuristic>, events: seq<Event>, p: Property)
    ensures Waits(Run(start, hs, events), p) <= Waits(start, p) + ArrivedIn(events, p)
  {
    if events != [] {
      var before, e := events[..|events| - 1], events[|events| - 1];
      RunWaits(start, hs, before, p);
      StepWaits(Run(start, hs, before), hs, e, p);
    }
  }

  /** Arriving jobs have ids, and a check picks only unmarked jobs; see `DispatchConcurrency.PicksAreUnmarked`. */
  ghost predicate WellFormed(e: Event) {
    && (e.Arrival? ==> e.jobId != "")
    && (e.CheckResumed? ==> e.picked.updateRunning == 0)
  }

  /** What the theorems ask of a run: the ids that wait or arrive are distinct and present. */
  ghost predicate GoodRun(start: State, events: seq<Event>) {
    && (forall id :: Waits(start, IdIs(id)) + ArrivedIn(events, IdIs(id)) <= 1)
    && Waits(start, IdIs("")) == 0
    && (forall i :: 0 <= i < |events| ==> WellFormed(events[i]))
  }

  lemma {:induction false} ArrivedPrefix(events: seq<Event>, n: nat, p: Property)
    requires n <= |events|
    ensures ArrivedIn(events[..n], p) <= ArrivedIn(events, p)
  {
    if n == |events| {
      assert events[..n] == events;
    } else {
      var before := events[..|events| - 1];
      ArrivedPrefix(before, n, p);
      assert before[..n] == events[..n];
    }
  }

  lemma GoodPrefix(start: State, events: seq<Event>, n: nat)
    requires GoodRun(start, events) && n <= |events|
    ensures GoodRun(start, events[..n])
  {
    forall id ensures Waits(start, IdIs(id)) + ArrivedIn(events[..n], IdIs(id)) <= 1 {
      assert Waits(start, IdIs(id)) + ArrivedIn(events, IdIs(id)) <= 1;
      ArrivedPrefix(events, n, IdIs(id));
    }
  }

  lemma ArrivedThen(before: seq<Event>, e: Event, p: Property)
    ensures ArrivedIn(before + [e], p) == ArrivedIn(before, p) + Arrives(e, p)
  {
    assert (before + [e])[..|before|] == before;
  }

  /** A good run with one more event is good if the event brings no id again. */
  lemma GoodThen(start: State, before: seq<Event>, e: Event)
    requires GoodRun(start, before) && WellFormed(e)
    requires forall id :: Waits(start, IdIs(id)) + ArrivedIn(before, IdIs(id)) + Arrives(e, IdIs(id)) <= 1
    ensures GoodRun(start, before + [e])
  {
    forall id ensures Waits(start, IdIs(id)) + ArrivedIn(before + [e], IdIs(id)) <= 1 {
      assert Waits(start, IdIs(id)) + ArrivedIn(before, IdIs(id)) + Arrives(e, IdIs(id)) <= 1;
      ArrivedThen(before, e, IdIs(id));
    }
  }

  lemma {:induction false} NoEmptyIds(events: seq<Event>)
    requires forall i :: 0 <= i < |events| ==> WellFormed(events[i])
    ensures ArrivedIn(events, IdIs("")) == 0
  {
    if events != [] {
      var before := events[..|events| - 1];
      forall i | 0 <= i < |before| ensures WellFormed(before[i]) {
        assert before[i] == events[i];
      }
      NoEmptyIds(before);
      assert WellFormed(events[|events| - 1]);
    }
  }

  /** After every run each waiting job can be found by its id. */
  lemma RunAddressable(start: State, hs: seq<Heuristic>, events: seq<Event>)
    requires GoodRun(start, events)
    ensures Addressable(Run(start, hs, events))
  {
    var s := Run(start, hs, events);
    forall id ensures Waits(s, IdIs(id)) <= 1 {
      assert Waits(start, IdIs(id)) + ArrivedIn(events, IdIs(id)) <= 1;
      RunWaits(start, hs, events, IdIs(id));
    }
    NoEmptyIds(events);
    RunWaits(start, hs, events, IdIs(""));
  }
}
