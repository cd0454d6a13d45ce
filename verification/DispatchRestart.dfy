/**
 * A restart between two runs: both queues are stored and loaded again. What a run may start from is what a restart
 * leaves, so every theorem about runs from such a start holds across any number of restarts.
 */
module DispatchRestart {
  import opened Wrappers
  import opened DriverJobs
  import opened DriverQueue
  import opened DriverPersistence
  import opened DispatchModel
  import opened DispatchConservation
  import opened DispatchAddressing
  import opened DispatchConcurrency
  import opened DispatchPromotion
  import opened DispatchOrder

  lemma WaitingIdsDistinct(s: State, w: Which)
    requires Addressable(s)
    ensures DistinctIds(s.Q(w))
  {
    var q := s.Q(w);
    forall i, j | 0 <= i < j < |q| ensures q[i].jobId != q[j].jobId {
      if q[i].jobId == q[j].jobId {
        assert Waits(s, IdIs(q[i].jobId)) <= 1;
        CountTwice(q, i, j);
      }
    }
  }

  lemma CountTwice(q: seq<Job>, i: nat, j: nat)
    requires i < j < |q| && q[i].jobId == q[j].jobId
    ensures Count(q, IdIs(q[i].jobId)) >= 2
  {
    var p := IdIs(q[i].jobId);
    assert q == q[..j] + q[j..];
    CountAppend(q[..j], q[j..], p);
    assert q[i] in q[..j] && q[j] in q[j..];
    CountMember(q[..j], q[i], p);
    CountMember(q[j..], q[j], p);
  }

  /** What a run starts from, with main scored at `t`: nothing tracked, ids distinct and none reserved. */
  ghost predicate Startable(start: State, t: int) {
    && Started(start) && OrderOk(start, t)
    && Addressable(start) && Waits(start, IdIs(FIRST_IN_LINE)) == 0
  }

  lemma EmptyIsStartable(t: int)
    ensures Startable(EMPTY, t)
  {
    assert forall id :: Waits(EMPTY, IdIs(id)) == 0;
  }

  /** A run from a start, with priorities in range and no id that is the marker of the stored chain. */
  ghost predicate StoredRun(start: State, t: int, events: seq<Event>) {
    && Startable(start, t) && GoodRun(start, events)
    && forall i :: 0 <= i < |events| ==> InRange(events[i]) && (events[i].Arrival? ==> events[i].jobId != FIRST_IN_LINE)
  }

  lemma {:induction false} MarkerNeverArrives(events: seq<Event>)
    requires forall i :: 0 <= i < |events| && events[i].Arrival? ==> events[i].jobId != FIRST_IN_LINE
    ensures ArrivedIn(events, IdIs(FIRST_IN_LINE)) == 0
  {
    if events != [] {
      var before := events[..|events| - 1];
      assert forall i :: 0 <= i < |before| ==> before[i] == events[i];
      MarkerNeverArrives(before);
    }
  }

  lemma NoneHeld(q: seq<Job>, id: string)
    requires Count(q, IdIs(id)) == 0
    ensures !HasId(q, id)
  {
    if HasId(q, id) {
      var i :| 0 <= i < |q| && q[i].jobId == id;
      CountMember(q, q[i], IdIs(id));
    }
  }

  lemma MarkerAbsent(start: State, t: int, events: seq<Event>)
    requires StoredRun(start, t, events)
    ensures var s := Run(start, CONFIGURED, events);
            && Waits(s, IdIs(FIRST_IN_LINE)) == 0
            && !HasId(s.preferred, FIRST_IN_LINE) && !HasId(s.main, FIRST_IN_LINE)
  {
    var s := Run(start, CONFIGURED, events);
    MarkerNeverArrives(events);
    RunWaits(start, CONFIGURED, events, IdIs(FIRST_IN_LINE));
    NoneHeld(s.preferred, FIRST_IN_LINE);
    NoneHeld(s.main, FIRST_IN_LINE);
  }

  /**
   * After any run, store both queues and load them again from records in any order: the preferred queue
   * keeps its order, less the jobs that were stopped, paused or are gone; main is scored anew.
   */
  lemma RestartRestoresQueues(
      start: State, t: int, events: seq<Event>, dataP: seq<Record>, dataM: seq<Record>, docs: map<string, JobDoc>,
      now: int)
    requires StoredRun(start, t, events)
    requires multiset(dataP) == multiset(StoredRecords(Run(start, CONFIGURED, events).preferred))
    requires multiset(dataM) == multiset(StoredRecords(Run(start, CONFIGURED, events).main))
    ensures var s := Run(start, CONFIGURED, events);
            && Loaded(Unscored, [], dataP, docs, now) == Some(Kept(docs, s.preferred))
            && Loaded(Weighted(CONFIGURED), [], dataM, docs, now)
               == Some(Recalculated(Weighted(CONFIGURED), now, Kept(docs, s.main)))
  {
    var s := Run(start, CONFIGURED, events);
    RunAddressable(start, CONFIGURED, events);
    WaitingIdsDistinct(s, PreferredQ);
    WaitingIdsDistinct(s, MainQ);
    MarkerAbsent(start, t, events);
    MainStaysSorted(start, t, events);
    PreferredOrderSurvives(s.preferred, dataP, docs, now);
    LoadRestores(Weighted(CONFIGURED), s.main, dataM, docs, now);
  }

  /** The process after a restart: the queues as they are loaded, nothing tracked, the consumer taken for active. */
  function Restarted(s: State, docs: map<string, JobDoc>, now: int): State {
    State(Kept(docs, s.preferred), Recalculated(Weighted(CONFIGURED), now, Kept(docs, s.main)), [], [], true, map[])
  }

  lemma {:induction false} KeptCount(docs: map<string, JobDoc>, q: seq<Job>, p: Property)
    ensures Count(Kept(docs, q), p) <= Count(q, p)
  {
    if q != [] {
      KeptCount(docs, q[1..], p);
      var rest := Kept(docs, q[1..]);
      assert ([Unscore(q[0])] + rest)[1..] == rest && Core(Unscore(q[0])) == Core(q[0]);
      assert Kept(docs, q) == if Skipped(docs, q[0].jobId) then rest else [Unscore(q[0])] + rest;
    }
  }

  lemma RestartedWaits(s: State, docs: map<string, JobDoc>, now: int, p: Property)
    ensures Waits(Restarted(s, docs, now), p) <= Waits(s, p)
  {
    KeptCount(docs, s.preferred, p);
    KeptCount(docs, s.main, p);
    CountRecalculated(Weighted(CONFIGURED), now, Kept(docs, s.main), p);
  }

  lemma KeptMarks(docs: map<string, JobDoc>, q: seq<Job>, tracked: set<string>)
    requires QueueOk(q, tracked, AnyMarks)
    ensures QueueOk(Kept(docs, q), {}, AnyMarks)
  {
    KeptFrom(docs, q);
    forall k | k in Kept(docs, q) ensures JobOk(k, {}, AnyMarks) {
      var j :| j in q && k == Unscore(j) && !Skipped(docs, j.jobId);
      assert JobOk(j, tracked, AnyMarks);
    }
  }

  lemma RestartedMarks(s: State, docs: map<string, JobDoc>, now: int)
    requires MarksOk(s, AnyMarks)
    ensures Started(Restarted(s, docs, now))
  {
    KeptMarks(docs, s.preferred, s.active.Keys);
    KeptMarks(docs, s.main, s.active.Keys);
    RecalculatedOk(Weighted(CONFIGURED), now, Kept(docs, s.main), {}, AnyMarks);
    assert Restarted(s, docs, now).active.Keys == {};
  }

  lemma RestartedOrder(s: State, t: int, docs: map<string, JobDoc>, now: int)
    requires OrderOk(s, t)
    ensures OrderOk(Restarted(s, docs, now), now)
  {
    KeptFrom(docs, s.preferred);
    KeptFrom(docs, s.main);
    forall k | k in Kept(docs, s.main) ensures PriorityOk(k) {
      var j :| j in s.main && k == Unscore(j) && !Skipped(docs, j.jobId);
      assert JobScoredAt(j, t);
    }
    RecalculatedScored(Kept(docs, s.main), now);
  }

  /** What a restart leaves after any run from a start is a start again. */
  lemma RestartIsStart(start: State, t: int, events: seq<Event>, docs: map<string, JobDoc>, now: int)
    requires StoredRun(start, t, events)
    ensures Startable(Restarted(Run(start, CONFIGURED, events), docs, now), now)
  {
    var s := Run(start, CONFIGURED, events);
    RunAddressable(start, CONFIGURED, events);
    MarkerAbsent(start, t, events);
    RunMarks(start, CONFIGURED, events, AnyMarks);
    RestartedMarks(s, docs, now);
    MainStaysSorted(start, t, events);
    RestartedOrder(s, LastScored(t, events), docs, now);
    forall p: Property ensures Waits(Restarted(s, docs, now), p) <= Waits(s, p) {
      RestartedWaits(s, docs, now, p);
    }
    AddressableKept(s, Restarted(s, docs, now));
  }

  // ---------------------------------------------------------------- a mark that survives

  /** A held-back job that carries a mark, alone in main, is let run by a finished job of its pipeline. */
  lemma LoadedMarkBreaks(r: State, hs: seq<Heuristic>, j: Job)
    requires r == State([], [j], [], [], true, map[])
    requires j.maxExceeded && j.updateRunning == 1 && j.jobId != ""
    ensures Step(r, hs, Finished(j.experimentName, j.pipelineName)).active == map[j.pipelineName := Active(NaN, None)]
  {
    var experiment, name := j.experimentName, j.pipelineName;
    assert CheckMaxExceededIn(r, experiment, name, false, PreferredQ) == (r, false);
    assert FindHeld(r.main, experiment, name) == 0;
    assert FindJobByJobId(r, j.jobId) == Some((j, MainQ));
    assert DequeueJob(r, j.jobId) == CreateJob(r, j, MainQ);
  }

  lemma RestartedSingle(s: State, j: Job, docs: map<string, JobDoc>, now: int)
    requires s.preferred == [] && s.main == [j] && !Skipped(docs, j.jobId)
    ensures Restarted(s, docs, now)
            == State([], [Rescore(Weighted(CONFIGURED), now, Unscore(j))], [], [], true, map[])
  {
    var x := Rescore(Weighted(CONFIGURED), now, Unscore(j));
    assert [j][1..] == [] && Kept(docs, [j]) == [Unscore(j)];
    assert RescoreAll(Weighted(CONFIGURED), now, [Unscore(j)]) == [x];
    assert SortedByScore([x]) == [x];
  }

  /**
   * A run in which the count of a pipeline stops being a number: a held-back job arrives while the consumer is busy,
   * the interval marks it, the process restarts and loads the mark, and a job of the pipeline finishes.
   */
  lemma LoadedMarkMakesNaN(id: string, h: Pipeline, docs: map<string, JobDoc>, now: int)
    requires h.maxExceeded && id != "" && !Skipped(docs, id)
    ensures exists events ::
              && GoodRun(EMPTY, events)
              && var r := Restarted(Run(EMPTY, CONFIGURED, events), docs, now);
                 && Started(r)
                 && Step(r, CONFIGURED, Finished(h.experimentName, h.name)).active == map[h.name := Active(NaN, None)]
  {
    var job := Rescore(Weighted(CONFIGURED), 1, PipelineToQueueAdapter(id, h, 1));
    assert Core(job).jobId == id && Core(job).maxExceeded && Core(job).pipelineName == h.name;
    assert Core(job).experimentName == h.experimentName;
    var queued := StickyQueued(CONFIGURED, id, h, job);
    var e := StickyFirst(CONFIGURED, job);
    var events, marked := queued + [e], job.(updateRunning := 1);
    var before, after := State([], [job], [], [], false, map[]), Tracked(h.name, [marked], false, 1);
    RunTo(CONFIGURED, queued, e, before, after, map[], map[h.name := 1]);
    MarkedRestart(after, marked, docs, now);
    RunMarks(EMPTY, CONFIGURED, events, AnyMarks);
    RestartedMarks(after, docs, now);
  }

  lemma MarkedRestart(s: State, marked: Job, docs: map<string, JobDoc>, now: int)
    requires s.preferred == [] && s.main == [marked] && !Skipped(docs, marked.jobId)
    requires marked.maxExceeded && marked.updateRunning == 1 && marked.jobId != ""
    ensures Step(Restarted(s, docs, now), CONFIGURED, Finished(marked.experimentName, marked.pipelineName)).active
            == map[marked.pipelineName := Active(NaN, None)]
  {
    var x := Rescore(Weighted(CONFIGURED), now, Unscore(marked));
    RestartedSingle(s, marked, docs, now);
    assert Core(x) == Core(marked) && x.updateRunning == 1;
    assert x.jobId == Core(x).jobId && x.maxExceeded == Core(x).maxExceeded;
    assert x.experimentName == Core(x).experimentName && x.pipelineName == Core(x).pipelineName;
    LoadedMarkBreaks(Restarted(s, docs, now), CONFIGURED, x);
  }
}
